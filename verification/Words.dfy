/**
 Unsigned 32-bit counters and the slots they select.

 The rings and the completion map count in uint32_t and pick a slot with
 `counter % size`. The model keeps the true, unbounded count and wraps it where
 the program reads it, so a wrap-around shows up only in `Slot`.
 */
module Words {

  const WRAP: nat := 0x1_0000_0000

  /** The array index selected by the n-th value of a wrapping counter. */
  function Slot(n: nat, size: nat): (r: nat)
    requires 0 < size
    ensures r < size
  {
    (n % WRAP) % size
  }

  /** An array of slots, and the slot that each count selects. */
  datatype Assignment = Assignment(depth: nat, slot: nat -> nat)

  /** The slots of a ring or map of this size. */
  function Slots(size: nat): (at: Assignment)
    requires 0 < size
  {
    Assignment(size, n => Slot(n, size))
  }

  /** uint32_t subtraction. */
  function Minus(a: nat, b: nat): (r: nat)
    requires a < WRAP && b < WRAP
    ensures r < WRAP
  {
    (a - b) % WRAP
  }

  /** All counts below n use the array as a plain cyclic buffer. */
  predicate Cyclic(size: nat, n: nat)
    requires 0 < size
  {
    WRAP % size == 0 || n <= WRAP
  }

  lemma MinusIsDistance(n: nat, d: nat)
    requires d <= n < d + WRAP
    ensures Minus(n % WRAP, d % WRAP) == n - d
  {
    var a, b := n % WRAP, d % WRAP;
    var qn, qd := n / WRAP, d / WRAP;
    assert n - d == (qn - qd) * WRAP + (a - b);
    assert 0 <= n - d < WRAP;
    assert qn - qd == 0 || qn - qd == 1;
  }

  lemma ModOfMultiple(n: nat, k: nat, size: nat)
    requires 0 < size
    ensures (n + k * size) % size == n % size
    decreases k
  {
    if k > 0 {
      ModOfMultiple(n, k - 1, size);
      assert n + k * size == (n + (k - 1) * size) + size;
      ModStep(n + (k - 1) * size, size);
    }
  }

  lemma ModStep(n: nat, size: nat)
    requires 0 < size
    ensures (n + size) % size == n % size
  {
    var q, r := n / size, n % size;
    assert n + size == (q + 1) * size + r;
    DivModUnique(n + size, size, q + 1, r);
  }

  lemma {:induction false} MulAtLeast(e: nat, d: nat)
    requires 1 <= e
    ensures d <= e * d
  {
    if e > 1 {
      MulAtLeast(e - 1, d);
      assert e * d == (e - 1) * d + d;
    }
  }

  lemma MulStep(a: int, b: int, d: nat)
    ensures a < b ==> a * d + d <= b * d
  {
    if a < b {
      var e := b - a;
      MulAtLeast(e, d);
      assert (a + e) * d == a * d + e * d;
    }
  }

  lemma DivModUnique(n: nat, d: nat, q: nat, r: nat)
    requires 0 < d && r < d && n == q * d + r
    ensures n / d == q && n % d == r
  {
    MulStep(n / d, q, d);
    MulStep(q, n / d, d);
  }

  /** Wrapped counters advance like the counts they stand for. */
  lemma CountStep(n: nat)
    ensures (n % WRAP + 1) % WRAP == (n + 1) % WRAP
  {
  }

  lemma CountAdd(n: nat, i: nat)
    ensures (n % WRAP + i) % WRAP == (n + i) % WRAP
  {
    var q, r := n / WRAP, n % WRAP;
    assert n + i == (r + i) + q * WRAP;
    ModOfMultiple(r + i, q, WRAP);
  }

  /** When the size divides 2^32 the wrap-around is invisible. */
  lemma SlotIsMod(n: nat, size: nat)
    requires 0 < size && WRAP % size == 0
    ensures Slot(n, size) == n % size
  {
    var k := WRAP / size;
    var q, r := n / WRAP, n % WRAP;
    assert WRAP == k * size;
    assert n == r + q * WRAP;
    assert q * WRAP == (q * k) * size;
    ModOfMultiple(r, q * k, size);
  }

  lemma ResiduesDistinct(x: nat, y: nat, size: nat)
    requires 0 < size && x < y < x + size
    ensures x % size != y % size
  {
    MulStep(x / size, y / size, size);
    MulStep(y / size, x / size, size);
    assert x == (x / size) * size + x % size;
    assert y == (y / size) * size + y % size;
  }

  /** Counts less than one buffer length apart never share a slot. */
  lemma SlotsDistinct(x: nat, y: nat, size: nat)
    requires 0 < size && x < y < x + size && Cyclic(size, y + 1)
    ensures Slot(x, size) != Slot(y, size)
  {
    ResiduesDistinct(x, y, size);
    if WRAP % size == 0 {
      SlotIsMod(x, size);
      SlotIsMod(y, size);
    }
  }

  /** After the wrap the counter starts again at slot 0. */
  lemma SlotAfterWrap(size: nat, k: nat)
    requires k < size < WRAP
    ensures Slot(WRAP + k, size) == k
  {
    DivModUnique(WRAP + k, WRAP, 1, k);
    DivModUnique(k, size, 0, k);
  }

  /** The exact failure of the wrap: the last slot before it is reused too early. */
  lemma SlotsCollideAtWrap(size: nat)
    requires 0 < size < WRAP && WRAP % size != 0
    ensures Slot(WRAP - 1, size) == WRAP % size - 1 == Slot(WRAP + (WRAP % size - 1), size)
  {
    var q, r := WRAP / size, WRAP % size;
    SlotAfterWrap(size, r - 1);
    LastBeforeWrap(WRAP, size, q, r);
  }

  lemma LastBeforeWrap(w: nat, size: nat, q: nat, r: nat)
    requires 0 < r < size && w == q * size + r && w == WRAP
    ensures Slot(w - 1, size) == r - 1
  {
    DivModUnique(w - 1, WRAP, 0, w - 1);
    DivModUnique(w - 1, size, q, r - 1);
  }

  // --- Windows narrower than the ring ---------------------------------------------------

  /** The number of consecutive counts that are sure to use different slots, also across the wrap. */
  function Window(size: nat): (w: nat)
    requires 0 < size
    ensures 0 < w <= size && (w == size <==> WRAP % size == 0)
  {
    if WRAP % size == 0 then size else WRAP % size
  }

  lemma SlotsDistinctInWindow(x: nat, y: nat, size: nat)
    requires 0 < size < WRAP && x < y < x + Window(size)
    ensures Slot(x, size) != Slot(y, size)
  {
    if WRAP % size == 0 {
      SlotsDistinct(x, y, size);
    } else if x / WRAP == y / WRAP {
      ResiduesDistinct(x % WRAP, y % WRAP, size);
    } else {
      SlotsApartAcross(WRAP - x % WRAP, y % WRAP, size);
    }
  }

  /** The a-th count before a wrap and the b-th after it. */
  lemma SlotsApartAcross(a: nat, b: nat, size: nat)
    requires 0 < a && 0 < size < WRAP && a + b < WRAP % size
    ensures (WRAP - a) % size != b % size
  {
    var q, r := WRAP / size, WRAP % size;
    BeforeWrap(WRAP, a, size, q, r);
    DivModUnique(b, size, 0, b);
  }

  lemma BeforeWrap(w: nat, a: nat, size: nat, q: nat, r: nat)
    requires a <= r < size && w == q * size + r
    ensures (w - a) % size == r - a
  {
    DivModUnique(w - a, size, q, r - a);
  }

  /** No more than that: from the last multiple of the size before the wrap, the slots start over at the wrap. */
  lemma WindowIsTight(size: nat, k: nat)
    requires 0 < size < WRAP && WRAP % size != 0 && k < Window(size)
    ensures Slot(WRAP - Window(size) + k, size) == k == Slot(WRAP + k, size)
  {
    var q, r := WRAP / size, WRAP % size;
    BeforeWrap(WRAP, r - k, size, q, r);
    DivModUnique(WRAP - r + k, WRAP, 0, WRAP - r + k);
    SlotAfterWrap(size, k);
  }
}
