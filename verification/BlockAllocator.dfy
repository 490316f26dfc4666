/**
 The file system's block allocator: a disk extent cut into small blocks followed by large ones,
 with a ring of free blocks for each size.
 */
module BlockAllocator {
  import opened Words
  import opened Wrappers
  import opened RequestRing
  import opened RingPool

  const SMALL_BLOCK_SIZE: nat := 4096
  const LARGE_BLOCK_SIZE: nat := 131072
  /** size_t arithmetic. */
  const WRAP64: nat := 0x1_0000_0000_0000_0000

  datatype Block = Block(off: nat, size: nat)

  function GetNumLargeBlocks(diskSize: nat, numSmall: nat): (n: nat) {
    ((diskSize - numSmall * SMALL_BLOCK_SIZE) % WRAP64) / LARGE_BLOCK_SIZE
  }

  datatype Extent = Extent(off: nat, size: nat, small: nat) {
    /** The small blocks fit the extent. */
    predicate Fits() { size < WRAP64 && small * SMALL_BLOCK_SIZE <= size }

    function Large(): (n: nat) { GetNumLargeBlocks(size, small) }

    function SmallBlock(i: nat): (b: Block) { Block(off + i * SMALL_BLOCK_SIZE, SMALL_BLOCK_SIZE) }

    function LargeBlock(i: nat): (b: Block) {
      Block(off + small * SMALL_BLOCK_SIZE + i * LARGE_BLOCK_SIZE, LARGE_BLOCK_SIZE)
    }

    /** Block k of the extent: small ones first. */
    function BlockAt(k: nat): (b: Block) {
      if k < small then SmallBlock(k) else LargeBlock(k - small)
    }

    function Blocks(): (n: nat) { small + Large() }
  }

  predicate Inside(b: Block, x: Extent) {
    x.off <= b.off && b.off + b.size <= x.off + x.size
  }

  lemma LargeFits(x: Extent)
    requires x.Fits()
    ensures x.small * SMALL_BLOCK_SIZE + x.Large() * LARGE_BLOCK_SIZE <= x.size
    ensures x.size < x.small * SMALL_BLOCK_SIZE + x.Large() * LARGE_BLOCK_SIZE + LARGE_BLOCK_SIZE
  {
    var rest := x.size - x.small * SMALL_BLOCK_SIZE;
    assert rest % WRAP64 == rest;
  }

  /** Each block starts where the one before it ends. */
  lemma NextBlock(x: Extent, k: nat)
    ensures x.BlockAt(k).off + x.BlockAt(k).size == x.BlockAt(k + 1).off
  {
  }

  lemma {:induction false} BlocksOrdered(x: Extent, k: nat, l: nat)
    requires k < l
    ensures x.BlockAt(k).off + x.BlockAt(k).size <= x.BlockAt(l).off
    decreases l
  {
    NextBlock(x, l - 1);
    if k < l - 1 {
      BlocksOrdered(x, k, l - 1);
    }
  }

  /** Every block of the extent lies inside it exactly when the small blocks fit. */
  lemma InsideIff(x: Extent)
    requires x.size < WRAP64
    ensures (forall k: nat :: k < x.Blocks() ==> Inside(x.BlockAt(k), x)) <==> x.Fits()
  {
    if x.Fits() {
      LargeFits(x);
      forall k: nat | k < x.Blocks() ensures Inside(x.BlockAt(k), x) {
      }
    } else {
      assert !Inside(x.BlockAt(x.small - 1), x);
    }
  }

  /** The blocks leave no gap: every byte of the extent but a tail shorter than a large block is in one. */
  lemma BlocksCover(x: Extent, byte: nat) returns (k: nat)
    requires x.Fits() && x.off <= byte < x.off + x.small * SMALL_BLOCK_SIZE + x.Large() * LARGE_BLOCK_SIZE
    ensures k < x.Blocks() && x.BlockAt(k).off <= byte < x.BlockAt(k).off + x.BlockAt(k).size
    ensures x.size - x.small * SMALL_BLOCK_SIZE - x.Large() * LARGE_BLOCK_SIZE < LARGE_BLOCK_SIZE
  {
    LargeFits(x);
    var at := byte - x.off;
    if at < x.small * SMALL_BLOCK_SIZE {
      k := at / SMALL_BLOCK_SIZE;
    } else {
      k := x.small + (at - x.small * SMALL_BLOCK_SIZE) / LARGE_BLOCK_SIZE;
    }
  }

  // --- The two pools ----------------------------------------------------------------------------

  function SmallBlocks(x: Extent, n: nat): (bs: seq<Block>) {
    seq(n, i requires 0 <= i < n => x.SmallBlock(i))
  }

  function LargeBlocks(x: Extent, n: nat): (bs: seq<Block>) {
    seq(n, i requires 0 <= i < n => x.LargeBlock(i))
  }

  lemma BlocksDistinct(x: Extent)
    ensures Distinct(SmallBlocks(x, x.small)) && Distinct(LargeBlocks(x, x.Large()))
  {
  }

  /** Each ring has one entry per block, so it is sound exactly when the number of blocks divides 2^32. */
  lemma SoundIffDivides(blocks: seq<Block>)
    requires 0 < |blocks| < WRAP && Distinct(blocks)
    ensures AlwaysStocked(Slots(|blocks|), blocks) <==> WRAP % |blocks| == 0
    ensures NeverTwice(Slots(|blocks|), blocks) <==> WRAP % |blocks| == 0
  {
    SoundIff(blocks, |blocks|, blocks[0]);
  }

  /** In all histories of GetBlock and FreeBlock every block of either size is in its ring once or live once. */
  ghost predicate AlwaysOnePlace(x: Extent)
    requires 0 < x.small && 0 < x.Large()
  {
    && AlwaysStocked(Slots(x.small), SmallBlocks(x, x.small))
    && AlwaysStocked(Slots(x.Large()), LargeBlocks(x, x.Large()))
  }

  // --- Where the rings lie ------------------------------------------------------------------------

  /** sizeof of the ring object, which GetSize counts, of the header in memory, and of a block. */
  datatype RingSizes = RingSizes(handle: nat, header: nat, entry: nat) {
    predicate Valid() { header <= handle < WRAP && 0 < entry && 0 < header }

    /** GetSize, in 32 bits. */
    function GetSize(depth: nat): (n: nat) { (handle + entry * depth) % WRAP }

    /** The bytes a ring really uses. */
    function Bytes(depth: nat): (n: nat) { header + entry * depth }

    /** The size of the ring does not overflow. */
    predicate Sized(depth: nat) { handle + entry * depth < WRAP }
  }

  /** The 32-bit region sizes suffice for both rings, so that neither Init throws. */
  predicate Accepted(z: RingSizes, x: Extent, region: nat) {
    && z.GetSize(x.small) <= region % WRAP
    && z.GetSize(x.Large()) <= (region - z.GetSize(x.small)) % WRAP
  }

  /** The ring of large blocks starts where GetNextSection says the other one ends. */
  ghost predicate RingsDisjoint(z: RingSizes, x: Extent) {
    forall byte: nat :: !(InRing(byte, 0, z.Bytes(x.small)) && InRing(byte, z.GetSize(x.small), z.Bytes(x.Large())))
  }

  predicate InRing(byte: nat, start: nat, bytes: nat) {
    start <= byte < start + bytes
  }

  /** The rings share no byte exactly when the size of the first does not overflow. */
  lemma RingsDisjointIff(z: RingSizes, x: Extent)
    requires z.Valid()
    ensures RingsDisjoint(z, x) <==> z.Sized(x.small)
  {
    var n := z.handle + z.entry * x.small;
    if n >= WRAP {
      assert n % WRAP <= n - WRAP;
      assert InRing(z.GetSize(x.small), 0, z.Bytes(x.small));
    }
  }

  /** Absent overflow, both rings are accepted exactly when the region has room for one after the other. */
  lemma AcceptedIff(z: RingSizes, x: Extent, region: nat)
    requires z.Sized(x.small) && z.Sized(x.Large()) && region < WRAP
    ensures Accepted(z, x, region) <==> z.handle + z.entry * x.small + z.handle + z.entry * x.Large() <= region
  {
    var a, b := z.handle + z.entry * x.small, z.handle + z.entry * x.Large();
    assert a % WRAP == a && b % WRAP == b;
    if a <= region {
      assert (region - a) % WRAP == region - a;
    }
  }

  /** A tebibyte of small blocks: their ring takes 2^32 bytes more than it says, and both counts divide 2^32. */
  lemma OverlappingRings() returns (z: RingSizes, x: Extent, region: nat)
    ensures z.Valid() && x.Fits() && Accepted(z, x, region) && !RingsDisjoint(z, x)
    ensures 0 < x.small && WRAP % x.small == 0 && x.Large() == 1
  {
    z, x, region := RingSizes(24, 16, 16), Extent(0, 0x100_0002_0000, 0x1000_0000), 0x1_0000_0080;
    assert x.Large() == 1;
    RingsDisjointIff(z, x);
  }

  /** Both rings have a size of 32 bits and counts that the int loop index reaches. */
  predicate RingsFit(z: RingSizes, x: Extent) {
    z.Valid() && z.Sized(x.small) && z.Sized(x.Large()) && 0 < x.small < WRAP / 2 && 0 < x.Large() < WRAP / 2
  }

  /** When the rings fit, that is so exactly when both numbers of blocks divide 2^32. */
  lemma OnePlaceIff(z: RingSizes, x: Extent)
    requires RingsFit(z, x)
    ensures AlwaysOnePlace(x) <==> WRAP % x.small == 0 && WRAP % x.Large() == 0
    ensures NeverTwice(Slots(x.small), SmallBlocks(x, x.small)) <==> WRAP % x.small == 0
    ensures NeverTwice(Slots(x.Large()), LargeBlocks(x, x.Large())) <==> WRAP % x.Large() == 0
  {
    BlocksDistinct(x);
    SoundIffDivides(SmallBlocks(x, x.small));
    SoundIffDivides(LargeBlocks(x, x.Large()));
  }

  // --- The rings in memory --------------------------------------------------------------------------

  /** Enqueue of the two-lock ring when nobody else is at work. */
  method Push(r: Ring<Block>, b: Block, ghost st: Stock<Block>) returns (ok: bool, r': Ring<Block>)
    requires 0 < |st.slots| < WRAP && st.Shaped(Slots(|st.slots|)) && r == Memory(st)
    ensures ok <==> st.sent < st.taken + |st.slots|
    ensures r' == if ok then Memory(Give(Slots(|st.slots|), st, b)) else r
  {
    GiveIsEnqueue(st, b);
    MinusIsDistance(st.sent, st.taken);
    if Minus(r.enqueued, r.dequeued) >= |r.queue| {
      return false, r;
    }
    ok, r' := true, Ring((r.enqueued + 1) % WRAP, r.dequeued, r.queue[r.enqueued % |r.queue| := b]);
  }

  /** Dequeue of the two-lock ring when nobody else is at work. */
  method Pop(r: Ring<Block>, ghost st: Stock<Block>) returns (b: Option<Block>, r': Ring<Block>)
    requires 0 < |st.slots| < WRAP && st.Shaped(Slots(|st.slots|)) && r == Memory(st)
    ensures b.None? <==> st.taken == st.sent
    ensures b.None? ==> r' == r
    ensures b.Some? ==> b.value == st.Item(Slots(|st.slots|), st.taken) && r' == Memory(Take(Slots(|st.slots|), st))
  {
    TakeIsDequeue(st);
    MinusIsDistance(st.sent, st.taken);
    if Minus(r.enqueued, r.dequeued) == 0 {
      return None, r;
    }
    b, r' := Some(r.queue[r.dequeued % |r.queue|]), Ring(r.enqueued, (r.dequeued + 1) % WRAP, r.queue);
  }

  /** The stock of one ring has gone through some history. */
  ghost predicate Holds(blocks: seq<Block>, r: Ring<Block>, st: Stock<Block>) {
    0 < |blocks| < WRAP && r == Memory(st) && Reachable(Slots(|blocks|), blocks, st)
  }

  lemma HoldsFacts(blocks: seq<Block>, r: Ring<Block>, st: Stock<Block>)
    requires Holds(blocks, r, st)
    ensures Counted(Slots(|blocks|), blocks, st) && |st.slots| == |blocks|
  {
    ReachableCounted(Slots(|blocks|), blocks, st);
  }

  /** GetBlock on one ring. */
  method TakeBlock(ghost blocks: seq<Block>, r: Ring<Block>, ghost st: Stock<Block>)
    returns (b: Option<Block>, r': Ring<Block>, ghost st': Stock<Block>)
    requires Holds(blocks, r, st)
    ensures Holds(blocks, r', st') && st.Shaped(Slots(|blocks|))
    ensures b.None? <==> st.taken == st.sent
    ensures b.None? ==> st' == st
    ensures b.Some? ==> b.value == st.Item(Slots(|blocks|), st.taken) && st' == Take(Slots(|blocks|), st)
  {
    HoldsFacts(blocks, r, st);
    b, r' := Pop(r, st);
    st' := st;
    if b.Some? {
      st' := Take(Slots(|blocks|), st);
      ReachableNext(Slots(|blocks|), blocks, st, st');
    }
  }

  /** FreeBlock on one ring: a block that is out always finds room. */
  method GiveBlock(ghost blocks: seq<Block>, r: Ring<Block>, b: Block, ghost st: Stock<Block>)
    returns (ok: bool, r': Ring<Block>, ghost st': Stock<Block>)
    requires Holds(blocks, r, st) && b in st.live
    ensures Holds(blocks, r', st') && ok && st.Shaped(Slots(|blocks|)) && Gives(Slots(|blocks|), st, st', b)
  {
    HoldsFacts(blocks, r, st);
    RoomToReturn(Slots(|blocks|), blocks, st, b);
    ok, r' := Push(r, b, st);
    st' := Give(Slots(|blocks|), st, b);
    assert Gives(Slots(|blocks|), st, st', b);
    ReachableNext(Slots(|blocks|), blocks, st, st');
  }

  /** Enqueue a run of blocks into a new ring. */
  method Stack(ghost blocks: seq<Block>, off: nat, size: nat, n: nat) returns (r: Ring<Block>, end: nat, ghost st: Stock<Block>)
    requires 0 < n == |blocks| < WRAP
    requires forall i: nat :: i < n ==> blocks[i] == Block(off + i * size, size)
    ensures Holds(blocks, r, st) && RingPool.Init(Slots(n), blocks, st) && end == off + n * size
  {
    r, end := Ring(0, 0, seq(n, _ => Block(0, 0))), off;
    for i := 0 to n
      invariant Filled(blocks, n, r, i) && end == off + i * size
    {
      EnqueueFills(blocks, n, r, i);
      r := Step(r, Enqueue(Block(end, size))).0;
      assert (i + 1) * size == i * size + size;
      end := end + size;
    }
    st := StockOf(r);
    FilledIsInit(blocks, n, r);
    ReachableInit(Slots(n), blocks, st);
  }

  class BlockPool {
    const z: RingSizes
    const x: Extent
    var smallRing: Ring<Block>
    var largeRing: Ring<Block>
    ghost var small: Stock<Block>
    ghost var large: Stock<Block>

    ghost predicate Valid()
      reads this
    {
      && RingsFit(z, x)
      && Holds(SmallBlocks(x, x.small), smallRing, small) && Holds(LargeBlocks(x, x.Large()), largeRing, large)
    }

    /** Initialize, for rings that do not overlap. */
    constructor (z: RingSizes, x: Extent)
      requires x.Fits() && RingsFit(z, x)
      ensures Valid() && this.x == x && this.z == z && RingsDisjoint(z, x)
      ensures RingPool.Init(Slots(x.small), SmallBlocks(x, x.small), small)
      ensures RingPool.Init(Slots(x.Large()), LargeBlocks(x, x.Large()), large)
    {
      var sr, off, s := Stack(SmallBlocks(x, x.small), x.off, SMALL_BLOCK_SIZE, x.small);
      var lr, end, l := Stack(LargeBlocks(x, x.Large()), off, LARGE_BLOCK_SIZE, x.Large());
      RingsDisjointIff(z, x);
      this.z, this.x, smallRing, largeRing := z, x, sr, lr;
      small, large := s, l;
    }

    /** None when the ring for this size is empty and the caller's block is left as it was. */
    method GetBlock(size: nat) returns (block: Option<Block>)
      requires Valid()
      modifies this
      ensures Valid()
      ensures size == SMALL_BLOCK_SIZE ==> large == old(large) && Got(Slots(x.small), old(small), small, block)
      ensures size != SMALL_BLOCK_SIZE ==> small == old(small) && Got(Slots(x.Large()), old(large), large, block)
    {
      if size == SMALL_BLOCK_SIZE {
        block, smallRing, small := TakeBlock(SmallBlocks(x, x.small), smallRing, small);
      } else {
        block, largeRing, large := TakeBlock(LargeBlocks(x, x.Large()), largeRing, large);
      }
    }

    /** A live block goes back to the ring of its size, which is never full. */
    method FreeBlock(block: Block) returns (ok: bool)
      requires Valid() && (block in small.live || block in large.live)
      modifies this
      ensures Valid() && ok
      ensures block in old(small.live) ==>
                large == old(large) && old(small).Shaped(Slots(x.small)) && Gives(Slots(x.small), old(small), small, block)
      ensures block in old(large.live) ==>
                small == old(small) && old(large).Shaped(Slots(x.Large())) && Gives(Slots(x.Large()), old(large), large, block)
    {
      SizeOf(block);
      if block.size == SMALL_BLOCK_SIZE {
        ok, smallRing, small := GiveBlock(SmallBlocks(x, x.small), smallRing, block, small);
      } else {
        ok, largeRing, large := GiveBlock(LargeBlocks(x, x.Large()), largeRing, block, large);
      }
    }

    lemma SizeOf(block: Block)
      requires Valid()
      ensures block in small.live ==> block.size == SMALL_BLOCK_SIZE
      ensures block in large.live ==> block.size == LARGE_BLOCK_SIZE
    {
      HoldsFacts(SmallBlocks(x, x.small), smallRing, small);
      HoldsFacts(LargeBlocks(x, x.Large()), largeRing, large);
    }

    /** With counts that divide 2^32, each block is in exactly one of the two rings and the live blocks. */
    lemma ExactlyOnePlace(k: nat)
      requires Valid() && k < x.Blocks() && WRAP % x.small == 0 && WRAP % x.Large() == 0
      ensures small.Shaped(Slots(x.small)) && large.Shaped(Slots(x.Large()))
      ensures var b, s, l := x.BlockAt(k), small.Pending(Slots(x.small)), large.Pending(Slots(x.Large()));
              multiset(s)[b] + multiset(l)[b] + small.live[b] + large.live[b] == 1
    {
      BlocksDistinct(x);
      OnePlaceIff(z, x);
      BlockInStock(x, k);
    }
  }

  /** GetBlock on the stock: nothing when it is empty, else its oldest block. */
  ghost predicate Got(at: Assignment, st: Stock<Block>, st': Stock<Block>, block: Option<Block>) {
    && st.Shaped(at) && (block.None? <==> st.taken == st.sent)
    && (block.None? ==> st' == st)
    && (block.Some? ==> block.value == st.Item(at, st.taken) && st' == Take(at, st))
  }

  lemma BlockInStock(x: Extent, k: nat)
    requires k < x.Blocks()
    ensures multiset(SmallBlocks(x, x.small))[x.BlockAt(k)] + multiset(LargeBlocks(x, x.Large()))[x.BlockAt(k)] == 1
  {
    var b, ss, ls := x.BlockAt(k), SmallBlocks(x, x.small), LargeBlocks(x, x.Large());
    BlocksDistinct(x);
    AtMostOnce(ss, b);
    AtMostOnce(ls, b);
    if k < x.small {
      assert ss[k] == b && b in ss && b !in ls;
    } else {
      assert ls[k - x.small] == b && b in ls && b !in ss;
    }
  }
}
