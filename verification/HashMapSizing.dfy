/**
 Sizing of the shared hash map: GetSize says how many bytes a number of buckets takes, and Init,
 given only a region, works the other way round. Every product and sum is 32-bit.
 */
module HashMapSizing {
  import opened Words
  import opened Bit2Map

  const WORD_BYTES: nat := 4

  function BitmapSize(entries: nat): (n: nat)
    ensures n == WORD_BYTES * (entries / PER_WORD) || n == WORD_BYTES * (entries / PER_WORD) + WORD_BYTES
  {
    if entries % PER_WORD == 0 then (entries / PER_WORD) * WORD_BYTES
    else (entries / PER_WORD + 1) * WORD_BYTES
  }

  /** Bytes of a map with this many buckets, before reduction to 32 bits. */
  function Bytes(header: nat, bucket: nat, buckets: nat): (n: nat) {
    header + BitmapSize(buckets) + bucket * buckets
  }

  function GetSize(header: nat, bucket: nat, buckets: nat): (n: nat) {
    Bytes(header, bucket, buckets) % WRAP
  }

  /** The number of buckets Init derives from the size of its region, when told none. */
  function Derived(header: nat, bucket: nat, regionSize: nat): (n: nat)
    requires header <= regionSize
  {
    (((regionSize - header) * PER_WORD) % WRAP) / (bucket * PER_WORD + WORD_BYTES)
  }

  /** Neither the size nor Init's product overflows. */
  predicate NoOverflow(header: nat, regionSize: nat) {
    header <= regionSize < WRAP && (regionSize - header) * PER_WORD < WRAP
  }

  lemma BitmapBounds(n: nat)
    ensures n <= 4 * BitmapSize(n) <= n + 15
  {
  }

  lemma Expand(bucket: nat, n: nat)
    ensures n * (bucket * PER_WORD + WORD_BYTES) == 16 * (bucket * n) + 4 * n
  {
    assert n * (bucket * PER_WORD) == (n * bucket) * 16;
  }

  lemma QuotientIff(m: nat, d: nat, n: nat)
    requires 0 < d
    ensures m / d == n <==> n * d <= m < n * d + d
  {
    if n * d <= m < n * d + d {
      DivModUnique(m, d, n, m - n * d);
    }
  }

  /** The condition under which n is the quotient. */
  lemma DerivedIs(header: nat, bucket: nat, regionSize: nat, n: nat)
    requires NoOverflow(header, regionSize)
    ensures Derived(header, bucket, regionSize) == n <==>
            16 * (bucket * n) + 4 * n <= 16 * (regionSize - header) < 16 * (bucket * n) + 16 * bucket + 4 * n + 4
  {
    QuotientIff((regionSize - header) * PER_WORD, bucket * PER_WORD + WORD_BYTES, n);
    Expand(bucket, n);
  }

  /** Init on a region of GetSize(m) bytes gets m buckets back exactly when this holds. */
  lemma RoundTripIff(header: nat, bucket: nat, m: nat)
    requires NoOverflow(header, Bytes(header, bucket, m))
    ensures GetSize(header, bucket, m) == Bytes(header, bucket, m)
    ensures Derived(header, bucket, GetSize(header, bucket, m)) == m <==>
            16 * BitmapSize(m) < 4 * m + 16 * bucket + 4
  {
    BitmapBounds(m);
    DerivedIs(header, bucket, Bytes(header, bucket, m), m);
  }

  /** Buckets of at least four bytes always round-trip. */
  lemma RoundTrip(header: nat, bucket: nat, m: nat)
    requires NoOverflow(header, Bytes(header, bucket, m)) && 4 <= bucket
    ensures Derived(header, bucket, GetSize(header, bucket, m)) == m
  {
    BitmapBounds(m);
    RoundTripIff(header, bucket, m);
  }

  /** Smaller ones do not: a map of one bucket comes back with more. */
  lemma SmallBucketsDoNot(header: nat, bucket: nat)
    requires bucket < 4 && header + 8 < WRAP
    ensures Derived(header, bucket, GetSize(header, bucket, 1)) > 1
  {
    RoundTripIff(header, bucket, 1);
    DerivedIs(header, bucket, Bytes(header, bucket, 1), 0);
  }

  ghost predicate AlwaysRoundTrips(header: nat, bucket: nat) {
    forall m: nat :: NoOverflow(header, Bytes(header, bucket, m)) ==>
      Derived(header, bucket, GetSize(header, bucket, m)) == m
  }

  /** So every number of buckets comes back exactly when a bucket has at least four bytes. */
  lemma AlwaysRoundTripsIff(header: nat, bucket: nat)
    requires header + 8 < WRAP
    ensures AlwaysRoundTrips(header, bucket) <==> 4 <= bucket
  {
    if 4 <= bucket {
      forall m: nat | NoOverflow(header, Bytes(header, bucket, m))
        ensures Derived(header, bucket, GetSize(header, bucket, m)) == m
      {
        RoundTrip(header, bucket, m);
      }
    } else {
      SmallBucketsDoNot(header, bucket);
      assert NoOverflow(header, Bytes(header, bucket, 1));
    }
  }

  lemma Maximal(x: nat, n: nat, bucket: nat, room: nat, bitmap: nat, bitmap': nat)
    requires 16 * x + 4 * n <= 16 * room < 16 * x + 16 * bucket + 4 * n + 4
    requires n <= 4 * bitmap <= n + 15 && n + 1 <= 4 * bitmap'
    ensures room < bitmap' + x + bucket && bitmap + x <= room + 3
  {
  }

  /** On any region, one bucket more would not fit, and the derived number fits to within 3 bytes. */
  lemma DerivedIsMaximal(header: nat, bucket: nat, regionSize: nat)
    requires NoOverflow(header, regionSize)
    ensures var n := Derived(header, bucket, regionSize);
            && regionSize < Bytes(header, bucket, n + 1)
            && Bytes(header, bucket, n) <= regionSize + 3
  {
    var n := Derived(header, bucket, regionSize);
    DerivedIs(header, bucket, regionSize, n);
    MaximalFor(header, bucket, regionSize - header, n);
  }

  lemma MaximalFor(header: nat, bucket: nat, room: nat, n: nat)
    requires 16 * (bucket * n) + 4 * n <= 16 * room < 16 * (bucket * n) + 16 * bucket + 4 * n + 4
    ensures header + room < Bytes(header, bucket, n + 1) && Bytes(header, bucket, n) <= header + room + 3
  {
    BitmapBounds(n);
    BitmapBounds(n + 1);
    assert bucket * (n + 1) == bucket * n + bucket;
    Maximal(bucket * n, n, bucket, room, BitmapSize(n), BitmapSize(n + 1));
  }

  /** The three bytes are needed: four-byte buckets in a region five bytes larger than the header. */
  lemma OverrunByThree(header: nat)
    requires header + 5 < WRAP
    ensures Derived(header, 4, header + 5) == 1 && Bytes(header, 4, 1) == header + 5 + 3
  {
    DivModUnique(80, 68, 1, 12);
  }
}
