/**
 A call of the shared hash map that nobody disturbs, access by access, does what the map of one
 caller does: the same answer and the same buckets afterwards.
 */
module SharedMapAlone {
  import opened Bit2Map
  import opened SharedMap
  import opened HashMap

  /** P is kept by the steps of thread t in this call. */
  ghost predicate MovesBy(m: Table, P: State -> bool, t: nat, call: Call) {
    forall s {:trigger Step(m, s, t, call)} :: P(s) && Shape(m, s) && t < |s.threads| ==> P(Step(m, s, t, call))
  }

  lemma Do(m: Table, P: State -> bool, s: State, t: nat, call: Call) returns (s': State)
    requires MovesBy(m, P, t, call) && P(s) && Shape(m, s) && t < |s.threads|
    ensures s' == Step(m, s, t, call) && P(s') && Shape(m, s') && s'.threads == s.threads[t := s'.threads[t]]
  {
    s' := Step(m, s, t, call);
    ShapeStep(m, s, t, call);
  }

  /** Only the entry of bucket b differs. */
  ghost predicate OnlyAt(m: Table, s: State, s': State, b: nat)
    requires Shape(m, s)
  {
    |s'.words| == |s.words| && forall e :: 0 <= e < m.size && e != b ==> Bits(s', e) == Bits(s, e)
  }

  lemma WordOnlyAt(m: Table, s: State, s': State, b: nat, w: bv32)
    requires Shape(m, s) && b < m.size && IsUpdate(s.Word(b), w, Shift(b)) && s'.words == s.words[b / PER_WORD := w]
    ensures OnlyAt(m, s, s', b)
  {
    forall e | 0 <= e < m.size && e != b ensures Bits(s', e) == Bits(s, e) {
      UpdateKeepsOthers(s.words, b, w, e);
    }
  }

  /** Thread t has returned, and nobody else has moved. */
  ghost predicate Ends(s: State, s': State, t: nat, call: Call, answer: Answer)
    requires t < |s.threads|
  {
    s'.threads == s.threads[t := Idle] && s'.returned == s.returned + [Return(t, call, answer)]
  }

  /** No entry is BEING_SET or being removed. */
  ghost predicate Calm(m: Table, s: State)
    requires Shape(m, s)
  {
    forall e :: 0 <= e < m.size ==> Bits(s, e) == 0 || Bits(s, e) == VALID
  }

  ghost function Cells(m: Table, s: State): (cells: seq<Cell>)
    requires Shape(m, s)
    ensures Fits(m, cells)
  {
    CellsOf(m.size, s.words, s.buckets)
  }

  /** Work on bucket b shows in its cell. */
  lemma CellChanges(m: Table, s: State, s': State, b: nat, item: Bucket)
    requires Shape(m, s) && Shape(m, s') && Calm(m, s) && b < m.size && OnlyAt(m, s, s', b)
    requires (Bits(s', b) == 0 || Bits(s', b) == VALID) && s'.buckets == s.buckets[b := item]
    ensures Calm(m, s') && Cells(m, s') == Cells(m, s)[b := if Bits(s', b) == VALID then Full(item) else Empty]
  {
    forall e: nat | e < m.size && e != b ensures Entry(s'.words, e) == Entry(s.words, e) && s'.buckets[e] == s.buckets[e] {
      assert Bits(s', e) == Bits(s, e);
    }
    CellsUpdate(m.size, s.words, s.buckets, s'.words, s'.buckets, b);
  }

  // --- Set -------------------------------------------------------------------------------------

  /** The slots from the i-th to the n-th, exclusive, are taken, or all free. */
  ghost predicate AllOf(m: Table, words: seq<bv32>, key: int, i: nat, n: nat, taken: bool)
    requires 0 < m.size <= PER_WORD * |words|
  {
    forall j: nat :: i <= j < n ==> (Entry(words, m.Slot(key, j)) != 0 <==> taken)
  }

  lemma ProbePasses(m: Table, P: State -> bool, s: State, t: nat, item: Bucket, i: nat) returns (s': State)
    requires MovesBy(m, P, t, Call.Set(item)) && P(s) && Shape(m, s) && t < |s.threads| && i < m.probes
    requires s.threads[t] == SetProbe(item, i, m.Slot(item.key, i)) && Bits(s, m.Slot(item.key, i)) != 0
    ensures P(s') && Shape(m, s') && s' == s.At(t, SetProbe(item, i + 1, m.Slot(item.key, i + 1)))
  {
    var b := m.Slot(item.key, i);
    TestEmptyReadsLane(s.Word(b), Shift(b));
    s' := Do(m, P, s, t, Call.Set(item));
  }

  /** Set passes over the slots that are taken. */
  lemma {:induction false} ProbeOn(m: Table, P: State -> bool, s: State, t: nat, item: Bucket, i: nat, n: nat) returns (s': State)
    requires MovesBy(m, P, t, Call.Set(item)) && P(s) && Shape(m, s) && t < |s.threads| && i <= n <= m.probes
    requires s.threads[t] == SetProbe(item, i, m.Slot(item.key, i))
    requires AllOf(m, s.words, item.key, i, n, true)
    ensures P(s') && Shape(m, s') && s' == s.At(t, SetProbe(item, n, m.Slot(item.key, n)))
    decreases n - i
  {
    if i < n {
      assert Bits(s, m.Slot(item.key, i)) != 0;
      var s1 := ProbePasses(m, P, s, t, item, i);
      s' := ProbeOn(m, P, s1, t, item, i + 1, n);
    } else {
      s' := s;
    }
    assert s'.threads == s.threads[t := SetProbe(item, n, m.Slot(item.key, n))];
  }

  /** A call of Set, up to its n-th probe. */
  lemma SetReaches(m: Table, P: State -> bool, s: State, t: nat, item: Bucket, n: nat) returns (s': State)
    requires MovesBy(m, P, t, Call.Set(item)) && P(s) && Shape(m, s) && t < |s.threads| && s.threads[t].Idle? && n <= m.probes
    requires AllOf(m, s.words, item.key, 0, n, true)
    ensures P(s') && Shape(m, s') && s' == s.Begin(t, Call.Set(item), SetProbe(item, n, m.Slot(item.key, n)))
  {
    var s1 := Do(m, P, s, t, Call.Set(item));
    assert s1 == s.Begin(t, Call.Set(item), SetProbe(item, 0, m.Slot(item.key, 0)));
    s' := ProbeOn(m, P, s1, t, item, 0, n);
    assert s'.threads == s.threads[t := SetProbe(item, n, m.Slot(item.key, n))];
  }

  /** A call of Set that finds its n-th slot free. */
  lemma SetCall(m: Table, P: State -> bool, s: State, t: nat, item: Bucket, n: nat) returns (s': State)
    requires MovesBy(m, P, t, Call.Set(item)) && P(s) && Shape(m, s) && t < |s.threads| && s.threads[t].Idle? && n < m.probes
    requires AllOf(m, s.words, item.key, 0, n, true)
    requires Bits(s, m.Slot(item.key, n)) == 0
    ensures P(s') && Shape(m, s') && Ends(s, s', t, Call.Set(item), Done(true)) && OnlyAt(m, s, s', m.Slot(item.key, n))
    ensures var b := m.Slot(item.key, n); Bits(s', b) == VALID && s'.buckets == s.buckets[b := item]
  {
    var s2 := SetReaches(m, P, s, t, item, n);
    assert forall e :: 0 <= e < m.size ==> Bits(s2, e) == Bits(s, e);
    var s3 := SetAcquires(m, P, s2, t, item, n);
    s' := SetCommits(m, P, s3, t, item, m.Slot(item.key, n));
    assert s'.threads == s.threads[t := Idle];
  }

  lemma SetAcquires(m: Table, P: State -> bool, s: State, t: nat, item: Bucket, n: nat) returns (s': State)
    requires MovesBy(m, P, t, Call.Set(item)) && P(s) && Shape(m, s) && t < |s.threads| && n < m.probes
    requires s.threads[t] == SetProbe(item, n, m.Slot(item.key, n)) && Bits(s, m.Slot(item.key, n)) == 0
    ensures P(s') && Shape(m, s') && s'.threads == s.threads[t := SetKey(item, m.Slot(item.key, n))]
    ensures s'.buckets == s.buckets && OnlyAt(m, s, s', m.Slot(item.key, n)) && s'.called == s.called && s'.returned == s.returned
  {
    var call, b := Call.Set(item), m.Slot(item.key, n);
    var w, sh := s.Word(b), Shift(b);
    TestEmptyReadsLane(w, sh);
    var s1 := Do(m, P, s, t, call);
    assert s1 == s.At(t, SetCas(item, n, b, w));
    s' := Do(m, P, s1, t, call);
    assert s' == s.At(t, SetKey(item, b)).WithWord(b, Acquired(w, sh));
    WordOnlyAt(m, s, s', b, Acquired(w, sh));
  }

  lemma SetCommits(m: Table, P: State -> bool, s: State, t: nat, item: Bucket, b: nat) returns (s': State)
    requires MovesBy(m, P, t, Call.Set(item)) && P(s) && Shape(m, s) && t < |s.threads| && s.threads[t] == SetKey(item, b)
    ensures P(s') && Shape(m, s') && Ends(s, s', t, s.called[t], Done(true)) && OnlyAt(m, s, s', b)
    ensures Bits(s', b) == VALID && s'.buckets == s.buckets[b := item]
  {
    var call, w, sh := Call.Set(item), s.Word(b), Shift(b);
    UpdatesOwnLane(w, sh);
    var s1 := Do(m, P, s, t, call);
    var s2 := Do(m, P, s1, t, call);
    assert s2 == s.At(t, SetCommit(item, b)).(buckets := s.buckets[b := item]);
    var s3 := Do(m, P, s2, t, call);
    assert s3 == s.At(t, SetCommitCas(item, b, w)).(buckets := s.buckets[b := item]);
    s' := Do(m, P, s3, t, call);
    assert s'.words == s.words[b / PER_WORD := Committed(w, sh)];
    WordOnlyAt(m, s, s', b, Committed(w, sh));
  }

  lemma TakenBits(m: Table, s: State, key: int, n: nat)
    requires Shape(m, s) && HashMap.Taken(m, Cells(m, s), key, n)
    ensures AllOf(m, s.words, key, 0, n, true)
  {
    forall j: nat | j < n ensures Entry(s.words, m.Slot(key, j)) != 0 {
      assert Cells(m, s)[m.Slot(key, j)].Full?;
    }
  }

  lemma SetAloneStores(m: Table, P: State -> bool, s: State, t: nat, item: Bucket, i: nat) returns (s': State)
    requires MovesBy(m, P, t, Call.Set(item)) && P(s) && Shape(m, s) && t < |s.threads| && s.threads[t].Idle? && Calm(m, s)
    requires StoresAt(m, Cells(m, s), item.key, i)
    ensures P(s') && Shape(m, s') && Calm(m, s') && Ends(s, s', t, Call.Set(item), Done(true))
    ensures Cells(m, s') == Cells(m, s)[m.Slot(item.key, i) := Full(item)]
  {
    TakenBits(m, s, item.key, i);
    s' := SetCall(m, P, s, t, item, i);
    CellChanges(m, s, s', m.Slot(item.key, i), item);
  }

  lemma SetAloneFails(m: Table, P: State -> bool, s: State, t: nat, item: Bucket) returns (s': State)
    requires MovesBy(m, P, t, Call.Set(item)) && P(s) && Shape(m, s) && t < |s.threads| && s.threads[t].Idle?
    requires HashMap.Taken(m, Cells(m, s), item.key, m.probes)
    ensures P(s') && Shape(m, s') && s'.words == s.words && s'.buckets == s.buckets && Ends(s, s', t, Call.Set(item), Done(false))
  {
    TakenBits(m, s, item.key, m.probes);
    var s1 := SetReaches(m, P, s, t, item, m.probes);
    s' := Do(m, P, s1, t, Call.Set(item));
    assert s'.threads == s.threads[t := Idle];
  }

  /** Alone, Set answers and stores as the map of one caller. */
  lemma SetAlone(m: Table, P: State -> bool, s: State, t: nat, item: Bucket) returns (s': State, ok: bool)
    requires MovesBy(m, P, t, Call.Set(item)) && P(s) && Shape(m, s) && t < |s.threads| && s.threads[t].Idle? && Calm(m, s)
    ensures P(s') && Shape(m, s') && Calm(m, s') && Ends(s, s', t, Call.Set(item), Done(ok))
    ensures IsSet(m, Cells(m, s), item, ok, Cells(m, s'))
  {
    if i: nat :| StoresAt(m, Cells(m, s), item.key, i) {
      s' := SetAloneStores(m, P, s, t, item, i);
      ok := true;
    } else {
      AllTaken(m, Cells(m, s), item.key, m.probes);
      s' := SetAloneFails(m, P, s, t, item);
      ok := false;
      assert forall e :: 0 <= e < m.size ==> Bits(s', e) == Bits(s, e);
    }
  }

  lemma {:induction false} AllTaken(m: Table, cells: seq<Cell>, key: int, n: nat)
    requires Fits(m, cells) && n <= m.probes && forall i: nat :: !StoresAt(m, cells, key, i)
    ensures HashMap.Taken(m, cells, key, n)
    decreases n
  {
    if n > 0 {
      AllTaken(m, cells, key, n - 1);
      assert !StoresAt(m, cells, key, n - 1);
    }
  }

  // --- Find --------------------------------------------------------------------------------------

  lemma FindPasses(m: Table, P: State -> bool, s: State, t: nat, key: int, i: nat) returns (s': State)
    requires MovesBy(m, P, t, Call.Find(key)) && P(s) && Shape(m, s) && t < |s.threads| && i < m.probes
    requires s.threads[t] == FindProbe(key, i, m.Slot(key, i))
    requires var b := m.Slot(key, i); Bits(s, b) == 0 || (Bits(s, b) == VALID && s.buckets[b].key != key)
    ensures P(s') && Shape(m, s') && s' == s.At(t, FindProbe(key, i + 1, m.Slot(key, i + 1)))
  {
    var b := m.Slot(key, i);
    TestValidReadsLane(s.Word(b), Shift(b));
    s' := Do(m, P, s, t, Call.Find(key));
    if Bits(s, b) == VALID {
      assert s' == s.At(t, FindKey(key, i, b));
      s' := Do(m, P, s', t, Call.Find(key));
    }
  }

  /** Find passes over the slots without its key. */
  lemma {:induction false} FindOn(m: Table, P: State -> bool, s: State, t: nat, key: int, i: nat, n: nat) returns (s': State)
    requires MovesBy(m, P, t, Call.Find(key)) && P(s) && Shape(m, s) && t < |s.threads| && i <= n <= m.probes && Calm(m, s)
    requires s.threads[t] == FindProbe(key, i, m.Slot(key, i)) && Misses(m, Cells(m, s), key, n)
    ensures P(s') && Shape(m, s') && s' == s.At(t, FindProbe(key, n, m.Slot(key, n)))
    decreases n - i
  {
    if i < n {
      assert !Has(Cells(m, s), m.Slot(key, i), key);
      var s1 := FindPasses(m, P, s, t, key, i);
      assert Calm(m, s1) && Cells(m, s1) == Cells(m, s) by {
        assert forall e :: 0 <= e < m.size ==> Bits(s1, e) == Bits(s, e);
      }
      s' := FindOn(m, P, s1, t, key, i + 1, n);
    } else {
      s' := s;
    }
    assert s'.threads == s.threads[t := FindProbe(key, n, m.Slot(key, n))];
  }

  lemma FindReaches(m: Table, P: State -> bool, s: State, t: nat, key: int, n: nat) returns (s': State)
    requires MovesBy(m, P, t, Call.Find(key)) && P(s) && Shape(m, s) && t < |s.threads| && s.threads[t].Idle? && Calm(m, s)
    requires n <= m.probes && Misses(m, Cells(m, s), key, n)
    ensures P(s') && Shape(m, s') && s' == s.Begin(t, Call.Find(key), FindProbe(key, n, m.Slot(key, n)))
  {
    var s1 := Do(m, P, s, t, Call.Find(key));
    assert s1 == s.Begin(t, Call.Find(key), FindProbe(key, 0, m.Slot(key, 0)));
    assert Cells(m, s1) == Cells(m, s);
    assert forall e :: 0 <= e < m.size ==> Bits(s1, e) == Bits(s, e);
    s' := FindOn(m, P, s1, t, key, 0, n);
    assert s'.threads == s.threads[t := FindProbe(key, n, m.Slot(key, n))];
  }

  /** A Find that has compared its key, at its n-th probe, and is about to read the value. */
  lemma FindHalfway(m: Table, P: State -> bool, s: State, t: nat, key: int, n: nat) returns (s': State)
    requires MovesBy(m, P, t, Call.Find(key)) && P(s) && Shape(m, s) && t < |s.threads| && s.threads[t].Idle? && Calm(m, s)
    requires HitsAt(m, Cells(m, s), key, n)
    ensures P(s') && Shape(m, s') && s' == s.Begin(t, Call.Find(key), FindValue(key, m.Slot(key, n)))
  {
    var call, b := Call.Find(key), m.Slot(key, n);
    TestValidReadsLane(s.Word(b), Shift(b));
    var s1 := FindReaches(m, P, s, t, key, n);
    var s2 := Do(m, P, s1, t, call);
    assert s2 == s.Begin(t, call, FindKey(key, n, b));
    s' := Do(m, P, s2, t, call);
  }

  /** Alone, Find answers as the map of one caller. */
  lemma FindAlone(m: Table, P: State -> bool, s: State, t: nat, key: int) returns (s': State, answer: Answer)
    requires MovesBy(m, P, t, Call.Find(key)) && P(s) && Shape(m, s) && t < |s.threads| && s.threads[t].Idle? && Calm(m, s)
    ensures P(s') && Shape(m, s') && Ends(s, s', t, Call.Find(key), answer) && s'.words == s.words && s'.buckets == s.buckets
    ensures answer.Done? ==> !answer.ok
    ensures IsFind(m, Cells(m, s), key, answer.Found?, if answer.Found? then answer.value else 0)
  {
    if n: nat :| HitsAt(m, Cells(m, s), key, n) {
      var s1 := FindHalfway(m, P, s, t, key, n);
      s' := Do(m, P, s1, t, Call.Find(key));
      answer := Found(s.buckets[m.Slot(key, n)].value);
      assert s'.threads == s.threads[t := Idle];
    } else {
      AllMissed(m, Cells(m, s), key, m.probes);
      var s1 := FindReaches(m, P, s, t, key, m.probes);
      s' := Do(m, P, s1, t, Call.Find(key));
      answer := Done(false);
      assert s'.threads == s.threads[t := Idle];
    }
  }

  lemma {:induction false} AllMissed(m: Table, cells: seq<Cell>, key: int, n: nat)
    requires Fits(m, cells) && n <= m.probes && forall i: nat :: !HitsAt(m, cells, key, i)
    ensures Misses(m, cells, key, n)
    decreases n
  {
    if n > 0 {
      AllMissed(m, cells, key, n - 1);
      assert !HitsAt(m, cells, key, n - 1);
    }
  }

  // --- Remove ----------------------------------------------------------------------------------------

  /** One step of Remove towards the nearest VALID bucket. */
  lemma RemovePasses(m: Table, P: State -> bool, s: State, t: nat, key: int, i: nat, k: nat, failed: nat) returns (s': State)
    requires MovesBy(m, P, t, Call.Remove(key)) && P(s) && Shape(m, s) && t < |s.threads|
    requires s.threads[t] == RemProbe(key, i, m.Slot(key, k), failed) && (i < m.probes ==> Bits(s, m.Slot(key, k)) == 0)
    ensures P(s') && Shape(m, s')
    ensures s' == s.At(t, if i < m.probes then RemProbe(key, i + 1, m.Slot(key, k + 1), failed)
                          else RemProbe(key, 0, m.Slot(key, k), failed))
  {
    var b := m.Slot(key, k);
    TestRemovableReadsLane(s.Word(b), Shift(b));
    s' := Do(m, P, s, t, Call.Remove(key));
  }

  /** Remove goes round to the nearest VALID bucket, the d-th, in as many rounds as it takes. */
  lemma {:induction false} RemoveOn(m: Table, P: State -> bool, s: State, t: nat, key: int, i: nat, k: nat, d: nat, failed: nat)
    returns (s': State, i': nat)
    requires MovesBy(m, P, t, Call.Remove(key)) && P(s) && Shape(m, s) && t < |s.threads| && k <= d
    requires s.threads[t] == RemProbe(key, i, m.Slot(key, k), failed)
    requires AllOf(m, s.words, key, 0, d, false)
    ensures P(s') && Shape(m, s') && i' < m.probes && s' == s.At(t, RemProbe(key, i', m.Slot(key, d), failed))
    decreases d - k, i
  {
    if k == d && i < m.probes {
      s', i' := s, i;
    } else {
      assert k < d ==> Bits(s, m.Slot(key, k)) == 0;
      var s1 := RemovePasses(m, P, s, t, key, i, k, failed);
      if i < m.probes {
        s', i' := RemoveOn(m, P, s1, t, key, i + 1, k + 1, d, failed);
      } else {
        s', i' := RemoveOn(m, P, s1, t, key, 0, k, d, failed);
      }
    }
    assert s'.threads == s.threads[t := RemProbe(key, i', m.Slot(key, d), failed)];
  }

  lemma NearestBits(m: Table, s: State, key: int, d: nat)
    requires Shape(m, s) && Calm(m, s) && NearestAt(m, Cells(m, s), key, d)
    ensures AllOf(m, s.words, key, 0, d, false) && Bits(s, m.Slot(key, d)) == VALID
  {
    forall j: nat | j < d ensures Entry(s.words, m.Slot(key, j)) == 0 {
      assert Cells(m, s)[m.Slot(key, j)].Empty?;
      assert Bits(s, m.Slot(key, j)) != VALID;
    }
  }

  /** A call of Remove, up to the nearest VALID bucket. */
  lemma RemoveReaches(m: Table, P: State -> bool, s: State, t: nat, key: int, d: nat) returns (s': State, i: nat)
    requires MovesBy(m, P, t, Call.Remove(key)) && P(s) && Shape(m, s) && t < |s.threads| && s.threads[t].Idle? && Calm(m, s)
    requires NearestAt(m, Cells(m, s), key, d)
    ensures P(s') && Shape(m, s') && i < m.probes && s' == s.Begin(t, Call.Remove(key), RemProbe(key, i, m.Slot(key, d), 0))
    ensures Bits(s, m.Slot(key, d)) == VALID
  {
    var s1 := Do(m, P, s, t, Call.Remove(key));
    assert s1 == s.Begin(t, Call.Remove(key), RemProbe(key, 0, m.Slot(key, 0), 0));
    NearestBits(m, s, key, d);
    s', i := RemoveOn(m, P, s1, t, key, 0, 0, d, 0);
    assert s'.threads == s.threads[t := RemProbe(key, i, m.Slot(key, d), 0)];
  }

  lemma RemoveSeizes(m: Table, P: State -> bool, s: State, t: nat, key: int, i: nat, b: nat, failed: nat) returns (s': State)
    requires MovesBy(m, P, t, Call.Remove(key)) && P(s) && Shape(m, s) && t < |s.threads| && i < m.probes
    requires s.threads[t] == RemProbe(key, i, b, failed) && Bits(s, b) == VALID
    ensures P(s') && Shape(m, s') && s'.threads == s.threads[t := RemCompare(key, b, failed)] && s'.buckets == s.buckets
    ensures OnlyAt(m, s, s', b) && s'.called == s.called && s'.returned == s.returned
  {
    var call, w, sh := Call.Remove(key), s.Word(b), Shift(b);
    TestRemovableReadsLane(w, sh);
    var s1 := Do(m, P, s, t, call);
    assert s1 == s.At(t, RemCas(key, i, b, failed, w));
    s' := Do(m, P, s1, t, call);
    assert s' == s.At(t, RemCompare(key, b, failed)).WithWord(b, Seized(w, sh));
    WordOnlyAt(m, s, s', b, Seized(w, sh));
  }

  lemma RemoveCommits(m: Table, P: State -> bool, s: State, t: nat, key: int, b: nat, failed: nat) returns (s': State)
    requires MovesBy(m, P, t, Call.Remove(key)) && P(s) && Shape(m, s) && t < |s.threads|
    requires s.threads[t] == RemCompare(key, b, failed) && s.buckets[b].key == key
    ensures P(s') && Shape(m, s') && Ends(s, s', t, s.called[t], Done(true)) && OnlyAt(m, s, s', b)
    ensures Bits(s', b) == 0 && s'.buckets == s.buckets
  {
    var call, w, sh := Call.Remove(key), s.Word(b), Shift(b);
    UpdatesOwnLane(w, sh);
    var s1 := Do(m, P, s, t, call);
    s' := Do(m, P, s1, t, call);
    assert s'.words == s.words[b / PER_WORD := Cleared(w, sh)];
    WordOnlyAt(m, s, s', b, Cleared(w, sh));
  }

  lemma RemoveIgnores(m: Table, P: State -> bool, s: State, t: nat, key: int, b: nat, failed: nat) returns (s': State)
    requires MovesBy(m, P, t, Call.Remove(key)) && P(s) && Shape(m, s) && t < |s.threads|
    requires s.threads[t] == RemCompare(key, b, failed) && s.buckets[b].key != key
    ensures P(s') && Shape(m, s') && s' == s.At(t, RemIgnoreCas(key, b, failed, s.Word(b)))
  {
    var s1 := Do(m, P, s, t, Call.Remove(key));
    assert s1 == s.At(t, RemIgnore(key, b, failed));
    s' := Do(m, P, s1, t, Call.Remove(key));
  }

  lemma IgnoreCommits(m: Table, P: State -> bool, s: State, t: nat, key: int, b: nat, failed: nat) returns (s': State)
    requires MovesBy(m, P, t, Call.Remove(key)) && P(s) && Shape(m, s) && t < |s.threads| && b < m.size
    requires s.threads[t] == RemIgnoreCas(key, b, failed, s.Word(b))
    ensures P(s') && Shape(m, s') && OnlyAt(m, s, s', b) && Bits(s', b) == VALID && s'.buckets == s.buckets
    ensures if failed + 1 == m.probes then Ends(s, s', t, s.called[t], Done(false))
            else s'.threads == s.threads[t := RemProbe(key, 0, b, failed + 1)] && s'.called == s.called && s'.returned == s.returned
  {
    var w, sh := s.Word(b), Shift(b);
    UpdatesOwnLane(w, sh);
    s' := Do(m, P, s, t, Call.Remove(key));
    assert s'.words == s.words[b / PER_WORD := Committed(w, sh)];
    WordOnlyAt(m, s, s', b, Committed(w, sh));
  }

  /** A call of Remove whose nearest VALID bucket, the d-th, holds the key. */
  lemma RemoveCall(m: Table, P: State -> bool, s: State, t: nat, key: int, d: nat) returns (s': State)
    requires MovesBy(m, P, t, Call.Remove(key)) && P(s) && Shape(m, s) && t < |s.threads| && s.threads[t].Idle? && Calm(m, s)
    requires NearestAt(m, Cells(m, s), key, d) && s.buckets[m.Slot(key, d)].key == key
    ensures P(s') && Shape(m, s') && Ends(s, s', t, Call.Remove(key), Done(true)) && OnlyAt(m, s, s', m.Slot(key, d))
    ensures Bits(s', m.Slot(key, d)) == 0 && s'.buckets == s.buckets
  {
    var s2, i := RemoveReaches(m, P, s, t, key, d);
    assert forall e :: 0 <= e < m.size ==> Bits(s2, e) == Bits(s, e);
    var s3 := RemoveSeizes(m, P, s2, t, key, i, m.Slot(key, d), 0);
    s' := RemoveCommits(m, P, s3, t, key, m.Slot(key, d), 0);
    assert s'.threads == s.threads[t := Idle];
  }

  /** Remove meets another key again and again until it gives up. */
  lemma {:induction false} RemoveGivesUp(m: Table, P: State -> bool, s: State, t: nat, key: int, i: nat, b: nat, failed: nat)
    returns (s': State)
    requires MovesBy(m, P, t, Call.Remove(key)) && P(s) && Shape(m, s) && t < |s.threads| && i < m.probes && Calm(m, s)
    requires s.threads[t] == RemProbe(key, i, b, failed) && Bits(s, b) == VALID && s.buckets[b].key != key && failed < m.probes
    ensures P(s') && Shape(m, s') && Calm(m, s') && Cells(m, s') == Cells(m, s)
    ensures Ends(s, s', t, s.called[t], Done(false))
    decreases m.probes - failed
  {
    var s1 := RemoveSeizes(m, P, s, t, key, i, b, failed);
    var s2 := RemoveIgnores(m, P, s1, t, key, b, failed);
    assert forall e :: 0 <= e < m.size ==> Bits(s2, e) == Bits(s1, e);
    s2 := IgnoreCommits(m, P, s2, t, key, b, failed);
    assert OnlyAt(m, s, s2, b) && s2.buckets == s.buckets[b := s.buckets[b]];
    CellChanges(m, s, s2, b, s.buckets[b]);
    assert Cells(m, s2) == Cells(m, s);
    s' := s2;
    if failed + 1 < m.probes {
      s' := RemoveGivesUp(m, P, s2, t, key, 0, b, failed + 1);
    }
    assert s'.threads == s.threads[t := Idle];
  }

  /** Alone, on a table with some VALID bucket, Remove answers and clears as the map of one caller. */
  lemma RemoveAlone(m: Table, P: State -> bool, s: State, t: nat, key: int) returns (s': State, ok: bool)
    requires MovesBy(m, P, t, Call.Remove(key)) && P(s) && Shape(m, s) && t < |s.threads| && s.threads[t].Idle? && Calm(m, s)
    requires Occupied(Cells(m, s))
    ensures P(s') && Shape(m, s') && Calm(m, s') && Ends(s, s', t, Call.Remove(key), Done(ok))
    ensures IsRemove(m, Cells(m, s), key, ok, Cells(m, s'))
  {
    var d := NearestExists(m, Cells(m, s), key);
    var b := m.Slot(key, d);
    ok := Has(Cells(m, s), b, key);
    if ok {
      s' := RemoveCall(m, P, s, t, key, d);
      assert s'.buckets == s.buckets[b := s.buckets[b]];
      CellChanges(m, s, s', b, s.buckets[b]);
    } else {
      var s2, i := RemoveReaches(m, P, s, t, key, d);
      assert forall e :: 0 <= e < m.size ==> Bits(s2, e) == Bits(s, e);
      s' := RemoveGivesUp(m, P, s2, t, key, i, b, 0);
      assert s'.threads == s.threads[t := Idle];
      assert Cells(m, s2) == Cells(m, s);
    }
    assert NearestAt(m, Cells(m, s), key, d);
  }
}
