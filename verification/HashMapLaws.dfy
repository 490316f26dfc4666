/**
 What the hash map means to its callers: a finite map, as long as Set is given new keys, and
 exactly how far it departs from one otherwise.
 */
module HashMapLaws {
  import opened SharedMap
  import opened HashMap

  ghost predicate KeysUnique(cells: seq<Cell>) {
    forall e: nat, f: nat, key :: Has(cells, e, key) && Has(cells, f, key) ==> e == f
  }

  ghost predicate Windowed(m: Table, cells: seq<Cell>)
    requires Fits(m, cells)
  {
    forall e: nat, key :: Has(cells, e, key) ==> InWindow(m, key, e)
  }

  ghost predicate Stored(cells: seq<Cell>, key: int) {
    exists e: nat :: Has(cells, e, key)
  }

  ghost predicate Represents(m: Table, cells: seq<Cell>, contents: map<int, int>)
    requires Fits(m, cells)
  {
    && KeysUnique(cells) && Windowed(m, cells)
    && (forall e: nat, key :: Has(cells, e, key) ==> key in contents && contents[key] == cells[e].item.value)
    && (forall key :: key in contents ==> Stored(cells, key))
  }

  /** Find succeeds exactly when some VALID bucket, anywhere, holds the key; holes hide nothing. */
  lemma FindAgrees(m: Table, cells: seq<Cell>, contents: map<int, int>, key: int, ok: bool, value: int)
    requires Fits(m, cells) && Represents(m, cells, contents) && IsFind(m, cells, key, ok, value)
    ensures ok <==> Stored(cells, key)
    ensures ok <==> key in contents
    ensures ok ==> value == contents[key]
  {
    if Stored(cells, key) {
      var e: nat :| Has(cells, e, key);
      assert InWindow(m, key, e);
      var i: nat :| i < m.probes && e == m.Slot(key, i);
    }
  }

  /** Set of a new key adds it, or fails with every probed slot taken and the table unchanged. */
  lemma SetAgrees(m: Table, cells: seq<Cell>, contents: map<int, int>, item: Bucket, ok: bool, cells': seq<Cell>)
    requires Fits(m, cells) && Represents(m, cells, contents) && item.key !in contents
    requires IsSet(m, cells, item, ok, cells')
    ensures Fits(m, cells')
    ensures Represents(m, cells', if ok then contents[item.key := item.value] else contents)
    ensures ok <==> !Taken(m, cells, item.key, m.probes)
  {
    if ok {
      var i: nat :| StoresAt(m, cells, item.key, i) && cells' == cells[m.Slot(item.key, i) := Full(item)];
      var b := m.Slot(item.key, i);
      forall e: nat, key | Has(cells', e, key) && e != b ensures Has(cells, e, key) && key != item.key {
        assert Has(cells, e, key);
      }
      forall key | key in contents ensures Stored(cells', key) {
        var e: nat :| Has(cells, e, key);
        assert Has(cells', e, key);
      }
      assert Has(cells', b, item.key);
    }
  }

  /** Remove deletes the key or changes nothing, and says which. */
  lemma RemoveAgrees(m: Table, cells: seq<Cell>, contents: map<int, int>, key: int, ok: bool, cells': seq<Cell>)
    requires Fits(m, cells) && Represents(m, cells, contents) && IsRemove(m, cells, key, ok, cells')
    ensures Fits(m, cells')
    ensures ok ==> key in contents
    ensures Represents(m, cells', if ok then contents - {key} else contents)
  {
    if ok {
      var d: nat :| NearestAt(m, cells, key, d) && Has(cells, m.Slot(key, d), key)
        && cells' == cells[m.Slot(key, d) := Empty];
      var b := m.Slot(key, d);
      forall e: nat, k | Has(cells', e, k) ensures Has(cells, e, k) && k != key {
        assert e != b;
        assert Has(cells, e, k);
      }
      forall k | k in contents - {key} ensures Stored(cells', k) {
        var e: nat :| Has(cells, e, k);
        assert Has(cells', e, k);
      }
    }
  }

  // --- Whole histories ---------------------------------------------------------------------

  datatype Event =
    | Put(item: Bucket, ok: bool)
    | Get(key: int, ok: bool, value: int)
    | Delete(key: int, ok: bool)

  ghost predicate IsEvent(m: Table, cells: seq<Cell>, ev: Event, cells': seq<Cell>)
    requires Fits(m, cells)
  {
    match ev
    case Put(item, ok) => IsSet(m, cells, item, ok, cells')
    case Get(key, ok, value) => IsFind(m, cells, key, ok, value) && cells' == cells
    case Delete(key, ok) => IsRemove(m, cells, key, ok, cells')
  }

  function Blank(m: Table): (cells: seq<Cell>)
    requires m.Valid()
    ensures Fits(m, cells)
  {
    seq(m.size, _ => Empty)
  }

  /** The events, in order, take the new table to these cells. */
  ghost predicate IsHistory(m: Table, events: seq<Event>, cells: seq<Cell>)
    requires m.Valid()
  {
    if events == [] then cells == Blank(m)
    else
      var n := |events| - 1;
      exists mid :: Fits(m, mid) && IsHistory(m, events[..n], mid) && IsEvent(m, mid, events[n], cells)
  }

  /** The finite map that the successful events describe. */
  function Contents(events: seq<Event>): (contents: map<int, int>) {
    if events == [] then map[]
    else
      var before, ev := Contents(events[..|events| - 1]), events[|events| - 1];
      if ev.Put? && ev.ok then before[ev.item.key := ev.item.value]
      else if ev.Delete? && ev.ok then before - {ev.key}
      else before
  }

  /** No Set is called with a key already in the map. */
  predicate PutsFresh(events: seq<Event>) {
    forall i :: 0 <= i < |events| && events[i].Put? ==> events[i].item.key !in Contents(events[..i])
  }

  lemma {:induction false} HistoryRepresents(m: Table, events: seq<Event>, cells: seq<Cell>)
    requires m.Valid() && IsHistory(m, events, cells) && PutsFresh(events)
    ensures Fits(m, cells) && Represents(m, cells, Contents(events))
    decreases |events|
  {
    if events != [] {
      var n := |events| - 1;
      var mid :| Fits(m, mid) && IsHistory(m, events[..n], mid) && IsEvent(m, mid, events[n], cells);
      PutsFreshPrefix(events, n);
      HistoryRepresents(m, events[..n], mid);
      match events[n]
      case Put(item, ok) => SetAgrees(m, mid, Contents(events[..n]), item, ok, cells);
      case Get(key, ok, value) =>
      case Delete(key, ok) => RemoveAgrees(m, mid, Contents(events[..n]), key, ok, cells);
    }
  }

  lemma PutsFreshPrefix(events: seq<Event>, n: nat)
    requires n <= |events| && PutsFresh(events)
    ensures PutsFresh(events[..n])
  {
    forall i | 0 <= i < n && events[..n][i].Put? ensures events[..n][i].item.key !in Contents(events[..n][..i]) {
      assert events[..n][..i] == events[..i];
    }
  }

  lemma {:induction false} HistoryPrefix(m: Table, events: seq<Event>, cells: seq<Cell>, n: nat) returns (mid: seq<Cell>)
    requires m.Valid() && IsHistory(m, events, cells) && n <= |events|
    ensures IsHistory(m, events[..n], mid)
    ensures n < |events| ==> Fits(m, mid) && exists next :: IsEvent(m, mid, events[n], next)
    decreases |events|
  {
    var last := |events| - 1;
    if n == |events| {
      assert events[..n] == events;
      mid := cells;
    } else {
      var before :| Fits(m, before) && IsHistory(m, events[..last], before) && IsEvent(m, before, events[last], cells);
      if n == last {
        mid := before;
      } else {
        mid := HistoryPrefix(m, events[..last], before, n);
        assert events[..last][..n] == events[..n];
      }
    }
  }

  /**
   In every history of Sets of new keys, Finds and Removes from the new table, every Find
   answers from the finite map that the history so far describes.
   */
  lemma FindsAnswerFromTheMap(m: Table, events: seq<Event>, cells: seq<Cell>, i: nat)
    requires m.Valid() && IsHistory(m, events, cells) && PutsFresh(events)
    requires i < |events| && events[i].Get?
    ensures events[i].ok <==> events[i].key in Contents(events[..i])
    ensures events[i].ok ==> events[i].value == Contents(events[..i])[events[i].key]
  {
    var mid := HistoryPrefix(m, events, cells, i);
    PutsFreshPrefix(events, i);
    HistoryRepresents(m, events[..i], mid);
    FindAgrees(m, mid, Contents(events[..i]), events[i].key, events[i].ok, events[i].value);
  }

  // --- Where it is not a map ---------------------------------------------------------------

  /**
   Set of a key that is already stored makes a second bucket for it. Find then returns the new
   value exactly when the free slot is probed before the old bucket; otherwise the old one.
   */
  lemma SetOfAStoredKey(
      m: Table, cells: seq<Cell>, item: Bucket, i: nat, j: nat, cells': seq<Cell>, ok: bool, value: int)
    requires Fits(m, cells) && HitsAt(m, cells, item.key, i) && StoresAt(m, cells, item.key, j)
    requires cells' == cells[m.Slot(item.key, j) := Full(item)]
    requires IsFind(m, cells', item.key, ok, value)
    ensures ok
    ensures value == if j < i then item.value else cells[m.Slot(item.key, i)].item.value
  {
    var key, first := item.key, if j < i then j else i;
    assert Has(cells', m.Slot(key, first), key);
    forall k: nat | k < first ensures !Has(cells', m.Slot(key, k), key) {
      assert !Has(cells, m.Slot(key, k), key);
    }
    assert HitsAt(m, cells', key, first);
    if ok {
      var k: nat :| HitsAt(m, cells', key, k) && value == cells'[m.Slot(key, k)].item.value;
      HitUnique(m, cells', key, first, k);
    }
  }

  lemma HitUnique(m: Table, cells: seq<Cell>, key: int, i: nat, j: nat)
    requires Fits(m, cells) && HitsAt(m, cells, key, i) && HitsAt(m, cells, key, j)
    ensures i == j
  {
    NoEarlierHit(m, cells, key, i, j);
    NoEarlierHit(m, cells, key, j, i);
  }

  lemma NoEarlierHit(m: Table, cells: seq<Cell>, key: int, i: nat, j: nat)
    requires Fits(m, cells) && Misses(m, cells, key, i) && Has(cells, m.Slot(key, j), key)
    ensures i <= j
  {
  }

  lemma NoEarlierFull(m: Table, cells: seq<Cell>, key: int, d: nat, i: nat)
    requires Fits(m, cells) && NearestAt(m, cells, key, d) && cells[m.Slot(key, i)].Full?
    ensures d <= i
  {
  }

  /** Set twice for one key: both succeed, and Find still returns the first value. */
  lemma SetDoesNotReplace(m: Table, a: Bucket, b: Bucket)
    requires m.Valid() && 2 <= m.size && 2 <= m.probes && a.key == b.key
    ensures exists cells :: IsHistory(m, [Put(a, true), Put(b, true), Get(a.key, true, a.value)], cells)
  {
    var s0, s1 := m.Slot(a.key, 0), m.Slot(a.key, 1);
    var c0 := Blank(m);
    var c1 := c0[s0 := Full(a)];
    var c2 := c1[s1 := Full(b)];
    assert StoresAt(m, c0, a.key, 0);
    assert StoresAt(m, c1, b.key, 1);
    assert HitsAt(m, c2, a.key, 0);
    ThreeEvents(m, Put(a, true), c1, Put(b, true), c2, Get(a.key, true, a.value), c2);
  }

  lemma ThreeEvents(m: Table, e0: Event, c0: seq<Cell>, e1: Event, c1: seq<Cell>, e2: Event, c2: seq<Cell>)
    requires m.Valid() && Fits(m, c0) && Fits(m, c1)
    requires IsEvent(m, Blank(m), e0, c0) && IsEvent(m, c0, e1, c1) && IsEvent(m, c1, e2, c2)
    ensures IsHistory(m, [e0, e1, e2], c2)
  {
    assert [] + [e0] == [e0] && [e0] + [e1] == [e0, e1] && [e0, e1] + [e2] == [e0, e1, e2];
    Extend(m, [], Blank(m), e0, c0);
    Extend(m, [e0], c0, e1, c1);
    Extend(m, [e0, e1], c1, e2, c2);
  }

  /**
   Remove of a stored key succeeds exactly when every slot probed before its bucket is empty:
   Remove never gets past a VALID bucket with another key.
   */
  lemma RemoveSucceedsIff(
      m: Table, cells: seq<Cell>, contents: map<int, int>, key: int, i: nat, ok: bool, cells': seq<Cell>)
    requires Fits(m, cells) && Represents(m, cells, contents)
    requires HitsAt(m, cells, key, i) && IsRemove(m, cells, key, ok, cells')
    ensures ok <==> forall j: nat :: j < i ==> cells[m.Slot(key, j)].Empty?
  {
    var d: nat :| NearestAt(m, cells, key, d) && (ok <==> Has(cells, m.Slot(key, d), key));
    NoEarlierFull(m, cells, key, d, i);
    if ok {
      NoEarlierHit(m, cells, key, i, d);
    } else {
      assert d < i && !cells[m.Slot(key, d)].Empty?;
    }
  }

  /** Two keys with one hash: Find locates the second, Remove does not. */
  lemma RemoveMisses(m: Table, a: Bucket, b: Bucket)
    requires m.Valid() && 2 <= m.size && 2 <= m.probes && a.key != b.key && m.hash(a.key) == m.hash(b.key)
    ensures exists events, cells ::
              && IsHistory(m, events, cells) && PutsFresh(events)
              && events == [Put(a, true), Put(b, true), Get(b.key, true, b.value), Delete(b.key, false)]
  {
    var s0, s1 := m.Slot(b.key, 0), m.Slot(b.key, 1);
    var c0 := Blank(m);
    var c1 := c0[s0 := Full(a)];
    var c2 := c1[s1 := Full(b)];
    assert StoresAt(m, c0, a.key, 0);
    assert StoresAt(m, c1, b.key, 1);
    assert HitsAt(m, c2, b.key, 1);
    assert NearestAt(m, c2, b.key, 0);
    assert IsEvent(m, c0, Put(a, true), c1) && IsEvent(m, c1, Put(b, true), c2);
    assert IsEvent(m, c2, Get(b.key, true, b.value), c2) && IsEvent(m, c2, Delete(b.key, false), c2);
    FourEvents(m, Put(a, true), c1, Put(b, true), c2, Get(b.key, true, b.value), c2, Delete(b.key, false), c2);
    PutsTwo(a, b, Get(b.key, true, b.value), Delete(b.key, false));
  }

  lemma PutsTwo(a: Bucket, b: Bucket, e2: Event, e3: Event)
    requires a.key != b.key && !e2.Put? && !e3.Put?
    ensures PutsFresh([Put(a, true), Put(b, true), e2, e3])
  {
    var events := [Put(a, true), Put(b, true), e2, e3];
    assert events[..0] == [] && events[..1] == [Put(a, true)];
    assert Contents(events[..1]) == map[][a.key := a.value];
  }

  lemma FourEvents(m: Table, e0: Event, c0: seq<Cell>, e1: Event, c1: seq<Cell>,
                   e2: Event, c2: seq<Cell>, e3: Event, c3: seq<Cell>)
    requires m.Valid() && Fits(m, c0) && Fits(m, c1) && Fits(m, c2)
    requires IsEvent(m, Blank(m), e0, c0) && IsEvent(m, c0, e1, c1) && IsEvent(m, c1, e2, c2) && IsEvent(m, c2, e3, c3)
    ensures IsHistory(m, [e0, e1, e2, e3], c3)
  {
    ThreeEvents(m, e0, c0, e1, c1, e2, c2);
    Extend(m, [e0, e1, e2], c2, e3, c3);
    assert [e0, e1, e2] + [e3] == [e0, e1, e2, e3];
  }

  lemma Extend(m: Table, events: seq<Event>, cells: seq<Cell>, ev: Event, cells': seq<Cell>)
    requires m.Valid() && Fits(m, cells) && IsHistory(m, events, cells) && IsEvent(m, cells, ev, cells')
    ensures IsHistory(m, events + [ev], cells')
  {
    assert (events + [ev])[..|events|] == events;
  }
}
