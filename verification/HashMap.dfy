/**
 The shared hash map as one caller sees it: bounded linear probing over buckets whose VALID bits
 live in the two-bit bitmap, with holes left behind by Remove.
 */
module HashMap {
  import opened Bit2Map
  import opened SharedMap

  datatype Cell = Empty | Full(item: Bucket)

  /** The buckets, with those that are not VALID blanked out. */
  function CellsOf(n: nat, words: seq<bv32>, buckets: seq<Bucket>): (cells: seq<Cell>)
    requires n <= |buckets| && n <= PER_WORD * |words|
    ensures |cells| == n
  {
    seq(n, e requires 0 <= e < n => if Entry(words, e) == VALID then Full(buckets[e]) else Empty)
  }

  /** Work on one entry and its bucket shows in one cell. */
  lemma CellsUpdate(n: nat, words: seq<bv32>, buckets: seq<Bucket>, words': seq<bv32>, buckets': seq<Bucket>, b: nat)
    requires n <= |buckets| == |buckets'| && n <= PER_WORD * |words| && |words'| == |words| && b < n
    requires forall e: nat :: e < n && e != b ==> Entry(words', e) == Entry(words, e) && buckets'[e] == buckets[e]
    ensures CellsOf(n, words', buckets') == CellsOf(n, words, buckets)[b := CellsOf(n, words', buckets')[b]]
  {
  }

  predicate Fits(m: Table, cells: seq<Cell>) {
    m.Valid() && |cells| == m.size
  }

  predicate Has(cells: seq<Cell>, e: nat, key: int) {
    e < |cells| && cells[e].Full? && cells[e].item.key == key
  }

  // --- Set ---------------------------------------------------------------------------------

  /** Every slot probed before the i-th is taken. */
  ghost predicate Taken(m: Table, cells: seq<Cell>, key: int, i: nat)
    requires Fits(m, cells)
  {
    forall j: nat :: j < i ==> cells[m.Slot(key, j)].Full?
  }

  /** Set stores into the i-th probed slot. */
  ghost predicate StoresAt(m: Table, cells: seq<Cell>, key: int, i: nat)
    requires Fits(m, cells)
  {
    i < m.probes && Taken(m, cells, key, i) && cells[m.Slot(key, i)].Empty?
  }

  /** What Set does to the table: its answer, and the cells afterwards. */
  ghost predicate IsSet(m: Table, cells: seq<Cell>, item: Bucket, ok: bool, cells': seq<Cell>)
    requires Fits(m, cells)
  {
    if ok then exists i: nat :: StoresAt(m, cells, item.key, i) && cells' == cells[m.Slot(item.key, i) := Full(item)]
    else Taken(m, cells, item.key, m.probes) && cells' == cells
  }

  // --- Find --------------------------------------------------------------------------------

  ghost predicate Misses(m: Table, cells: seq<Cell>, key: int, i: nat)
    requires Fits(m, cells)
  {
    forall j: nat :: j < i ==> !Has(cells, m.Slot(key, j), key)
  }

  ghost predicate HitsAt(m: Table, cells: seq<Cell>, key: int, i: nat)
    requires Fits(m, cells)
  {
    i < m.probes && Misses(m, cells, key, i) && Has(cells, m.Slot(key, i), key)
  }

  ghost predicate IsFind(m: Table, cells: seq<Cell>, key: int, ok: bool, value: int)
    requires Fits(m, cells)
  {
    if ok then exists i: nat :: HitsAt(m, cells, key, i) && value == cells[m.Slot(key, i)].item.value
    else Misses(m, cells, key, m.probes)
  }

  // --- Remove ------------------------------------------------------------------------------

  /** The first VALID bucket, going round from the hash slot of the key, is d slots away. */
  ghost predicate NearestAt(m: Table, cells: seq<Cell>, key: int, d: nat)
    requires Fits(m, cells)
  {
    cells[m.Slot(key, d)].Full? && forall j: nat :: j < d ==> cells[m.Slot(key, j)].Empty?
  }

  ghost predicate IsRemove(m: Table, cells: seq<Cell>, key: int, ok: bool, cells': seq<Cell>)
    requires Fits(m, cells)
  {
    exists d: nat ::
      && NearestAt(m, cells, key, d)
      && (ok <==> Has(cells, m.Slot(key, d), key))
      && cells' == if ok then cells[m.Slot(key, d) := Empty] else cells
  }

  ghost predicate Occupied(cells: seq<Cell>) {
    exists e :: 0 <= e < |cells| && cells[e].Full?
  }

  lemma {:induction false} SlotClosed(m: Table, key: int, d: nat)
    requires m.Valid() && d < m.size
    ensures var h := m.hash(key) % m.size; m.Slot(key, d) == if h + d < m.size then h + d else h + d - m.size
  {
    if d > 0 {
      SlotClosed(m, key, d - 1);
    }
  }

  /** Every bucket is some number of slots away from the hash slot. */
  lemma SlotReaches(m: Table, key: int, e: nat) returns (d: nat)
    requires m.Valid() && e < m.size
    ensures d < m.size && m.Slot(key, d) == e
  {
    var h := m.hash(key) % m.size;
    d := if h <= e then e - h else e + m.size - h;
    SlotClosed(m, key, d);
  }

  lemma {:induction false} NearestFrom(m: Table, cells: seq<Cell>, key: int, i: nat, n: nat) returns (d: nat)
    requires Fits(m, cells) && i <= n && cells[m.Slot(key, n)].Full?
    requires forall j: nat :: j < i ==> cells[m.Slot(key, j)].Empty?
    ensures d <= n && NearestAt(m, cells, key, d)
    decreases n - i
  {
    if cells[m.Slot(key, i)].Full? {
      d := i;
    } else {
      d := NearestFrom(m, cells, key, i + 1, n);
    }
  }

  lemma NearestExists(m: Table, cells: seq<Cell>, key: int) returns (d: nat)
    requires Fits(m, cells) && Occupied(cells)
    ensures d < m.size && NearestAt(m, cells, key, d)
  {
    var e :| 0 <= e < |cells| && cells[e].Full?;
    var n := SlotReaches(m, key, e);
    d := NearestFrom(m, cells, key, 0, n);
  }

  lemma NearestHere(m: Table, cells: seq<Cell>, key: int, k: nat, d: nat)
    requires Fits(m, cells) && NearestAt(m, cells, key, d) && k <= d
    ensures cells[m.Slot(key, k)].Full? <==> k == d
  {
  }

  /** The map, updated in place. */
  class UnorderedMap {
    const m: Table
    const words: array<bv32>
    const buckets: array<Bucket>

    function Bits(e: nat): (entry: bv32)
      requires e / PER_WORD < words.Length
      reads words
    {
      Entry(words[..], e)
    }

    ghost predicate Shaped()
    {
      && m.Valid() && buckets.Length == m.size && m.size <= PER_WORD * words.Length
      && (words as object) != (buckets as object)
    }

    /** Between calls no entry is BEING_SET. */
    ghost predicate Valid()
      reads words
    {
      Shaped() && forall e: nat :: e < m.size ==> Bits(e) == 0 || Bits(e) == VALID
    }

    ghost function Cells(): (cells: seq<Cell>)
      requires Shaped()
      reads words, buckets
      ensures |cells| == m.size
    {
      CellsOf(m.size, words[..], buckets[..])
    }

    constructor (m: Table)
      requires m.Valid()
      ensures Valid() && fresh(words) && fresh(buckets)
      ensures this.m == m && Cells() == seq(m.size, _ => Empty)
    {
      this.m := m;
      words := new bv32[(m.size + PER_WORD - 1) / PER_WORD](_ => 0);
      buckets := new Bucket[m.size](_ => Bucket(0, 0));
      new;
      forall e: nat | e < m.size ensures Bits(e) == 0 {
      }
    }

    method BeginModify(e: nat) returns (ok: bool)
      requires e / PER_WORD < words.Length
      modifies words
      ensures ok <==> old(Bits(e)) == 0
      ensures Bits(e) == if ok then BEING_SET else old(Bits(e))
      ensures forall f: nat :: f / PER_WORD < words.Length && f != e ==> Bits(f) == old(Bits(f))
    {
      var tmp := words[e / PER_WORD];
      TestEmptyReadsLane(tmp, Shift(e));
      if !TestEmpty(tmp, Shift(e)) {
        return false;
      }
      ok := true;
      UpdatesOwnLane(tmp, Shift(e));
      Swap(e, Acquired(tmp, Shift(e)));
    }

    method CommitModify(e: nat)
      requires e / PER_WORD < words.Length
      modifies words
      ensures Bits(e) == VALID
      ensures forall f: nat :: f / PER_WORD < words.Length && f != e ==> Bits(f) == old(Bits(f))
    {
      var tmp := words[e / PER_WORD];
      UpdatesOwnLane(tmp, Shift(e));
      Swap(e, Committed(tmp, Shift(e)));
    }

    method BeginRemove(e: nat) returns (ok: bool)
      requires e / PER_WORD < words.Length
      modifies words
      ensures ok <==> old(Bits(e)) == VALID
      ensures Bits(e) == if ok then OWNED else old(Bits(e))
      ensures forall f: nat :: f / PER_WORD < words.Length && f != e ==> Bits(f) == old(Bits(f))
    {
      var tmp := words[e / PER_WORD];
      TestRemovableReadsLane(tmp, Shift(e));
      if !TestRemovable(tmp, Shift(e)) {
        return false;
      }
      ok := true;
      UpdatesOwnLane(tmp, Shift(e));
      Swap(e, Seized(tmp, Shift(e)));
    }

    method CommitRemove(e: nat)
      requires e / PER_WORD < words.Length
      modifies words
      ensures Bits(e) == 0
      ensures forall f: nat :: f / PER_WORD < words.Length && f != e ==> Bits(f) == old(Bits(f))
    {
      var tmp := words[e / PER_WORD];
      UpdatesOwnLane(tmp, Shift(e));
      Swap(e, Cleared(tmp, Shift(e)));
    }

    /** The compare-and-exchange of an update, which succeeds when nobody else is at work. */
    method Swap(e: nat, w: bv32)
      requires e / PER_WORD < words.Length && IsUpdate(words[e / PER_WORD], w, Shift(e))
      modifies words
      ensures Bits(e) == Lane(w, Shift(e))
      ensures forall f: nat :: f / PER_WORD < words.Length && f != e ==> Bits(f) == old(Bits(f))
    {
      ghost var was := words[..];
      words[e / PER_WORD] := w;
      assert words[..] == was[e / PER_WORD := w];
      forall f: nat | f / PER_WORD < words.Length && f != e ensures Bits(f) == old(Bits(f)) {
        UpdateKeepsOthers(was, e, w, f);
      }
    }

    /** One probe of Set. */
    method StoreAt(b: nat, item: Bucket) returns (ok: bool)
      requires Valid() && b < m.size
      modifies words, buckets
      ensures Valid()
      ensures ok <==> old(Cells())[b].Empty?
      ensures Cells() == if ok then old(Cells())[b := Full(item)] else old(Cells())
    {
      ghost var ws, bs := words[..], buckets[..];
      assert Bits(b) == 0 || Bits(b) == VALID;
      ok := BeginModify(b);
      if ok {
        ghost var begun := words[..];
        buckets[b] := item;
        assert words[..] == begun;
        CommitModify(b);
      }
      assert forall e: nat :: e < m.size && e != b ==> Bits(e) == Entry(ws, e);
      CellsUpdate(m.size, ws, bs, words[..], buckets[..], b);
    }

    /** One probe of Find. */
    method MatchAt(b: nat, key: int) returns (ok: bool)
      requires Valid() && b < m.size
      ensures ok <==> Has(Cells(), b, key)
      ensures ok ==> Cells()[b].item == buckets[b]
    {
      assert Bits(b) == 0 || Bits(b) == VALID;
      TestValidReadsLane(words[b / PER_WORD], Shift(b));
      ok := TestValid(words[b / PER_WORD], Shift(b)) && buckets[b].key == key;
    }

    /** One probe of Remove: was the bucket VALID, and has it been cleared? */
    method RemoveAt(b: nat, key: int) returns (begun: bool, ok: bool)
      requires Valid() && b < m.size
      modifies words
      ensures Valid()
      ensures begun <==> old(Cells())[b].Full?
      ensures ok <==> Has(old(Cells()), b, key)
      ensures Cells() == if ok then old(Cells())[b := Empty] else old(Cells())
    {
      ghost var ws := words[..];
      assert Bits(b) == 0 || Bits(b) == VALID;
      begun := BeginRemove(b);
      ok := begun && buckets[b].key == key;
      if ok {
        CommitRemove(b);
      } else if begun {
        CommitModify(b);
      }
      assert forall e: nat :: e < m.size && e != b ==> Bits(e) == Entry(ws, e);
      CellsUpdate(m.size, ws, buckets[..], words[..], buckets[..], b);
    }

    method Set(item: Bucket) returns (ok: bool)
      requires Valid()
      modifies words, buckets
      ensures Valid()
      ensures IsSet(m, old(Cells()), item, ok, Cells())
    {
      ghost var cells := Cells();
      var b, i := m.Slot(item.key, 0), 0;
      while i < m.probes
        invariant i <= m.probes && b == m.Slot(item.key, i)
        invariant Valid() && Cells() == cells
        invariant Taken(m, cells, item.key, i)
      {
        ok := StoreAt(b, item);
        if ok {
          assert StoresAt(m, cells, item.key, i);
          return;
        }
        AfterIsMod(m, b);
        b, i := (b + 1) % m.size, i + 1;
      }
      ok := false;
    }

    method Find(key: int) returns (ok: bool, value: int)
      requires Valid()
      ensures IsFind(m, Cells(), key, ok, value)
    {
      ghost var cells := Cells();
      var b, i := m.Slot(key, 0), 0;
      while i < m.probes
        invariant i <= m.probes && b == m.Slot(key, i)
        invariant Misses(m, cells, key, i)
      {
        ok := MatchAt(b, key);
        if ok {
          assert HitsAt(m, cells, key, i);
          return true, buckets[b].value;
        }
        AfterIsMod(m, b);
        b, i := (b + 1) % m.size, i + 1;
      }
      return false, 0;
    }

    /**
     One round of Remove's inner loop, from the k-th slot: it stops at the first VALID bucket, the
     d-th, or after all its probes.
     */
    method RemoveRound(key: int, b: nat, ghost k: nat, ghost d: nat)
      returns (next: nat, begun: bool, ok: bool, ghost k': nat)
      requires Valid() && NearestAt(m, Cells(), key, d) && k <= d && b == m.Slot(key, k)
      modifies words
      ensures Valid() && next == m.Slot(key, k')
      ensures begun ==> k' == d && (ok <==> Has(old(Cells()), m.Slot(key, d), key))
      ensures !begun ==> k < k' <= d && !ok
      ensures Cells() == if ok then old(Cells())[m.Slot(key, d) := Empty] else old(Cells())
    {
      ghost var cells := Cells();
      var i := 0;
      next, k', begun, ok := b, k, false, false;
      while i < m.probes
        invariant i <= m.probes && k' == k + i <= d && next == m.Slot(key, k')
        invariant !begun && !ok && Valid() && Cells() == cells
      {
        NearestHere(m, cells, key, k', d);
        begun, ok := RemoveAt(next, key);
        if begun {
          return;
        }
        AfterIsMod(m, next);
        next, i, k' := (next + 1) % m.size, i + 1, k' + 1;
      }
    }

    /** `met` counts the VALID buckets of other keys that it seized and gave back. */
    method Remove(key: int) returns (ok: bool, ghost met: nat)
      requires Valid() && Occupied(Cells())
      modifies words
      ensures Valid()
      ensures IsRemove(m, old(Cells()), key, ok, Cells())
      ensures met == if ok then 0 else m.probes
    {
      ghost var cells := Cells();
      ghost var d := NearestExists(m, cells, key);
      var b, failed := m.Slot(key, 0), 0;
      ghost var k: nat := 0;
      met := 0;
      while failed != m.probes
        invariant met == failed <= m.probes && k <= d && b == m.Slot(key, k)
        invariant Valid() && Cells() == cells
        invariant failed > 0 ==> !Has(cells, m.Slot(key, d), key)
        decreases m.probes - failed, d - k
      {
        var begun, removed;
        b, begun, removed, k := RemoveRound(key, b, k, d);
        if removed {
          return true, met;
        }
        if begun {
          met := met + 1;
          failed := failed + 1;
        }
      }
      ok := false;
    }
  }
}
