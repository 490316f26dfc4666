/**
 Whole runs of the shared hash map: what a VALID bucket keeps, when a concurrent Find can be
 trusted, and when Remove never returns.
 */
module SharedMapRuns {
  import opened Bit2Map
  import opened SharedMap
  import opened SharedMapAlone
  import opened HashMap

  lemma {:induction false} RunPrefix(m: Table, run: seq<State>, n: nat)
    requires IsRun(m, run) && 0 < n <= |run|
    ensures IsRun(m, run[..n])
    ensures n < |run| ==> Next(m, run[n - 1], run[n])
    decreases |run|
  {
    var last := |run| - 1;
    if n == |run| {
      assert run[..n] == run;
    } else if n < last {
      RunPrefix(m, run[..last], n);
      assert run[..last][..n] == run[..n];
    }
  }

  lemma BucketNext(m: Table, s: State, s': State, e: nat)
    requires LockInv(m, s) && Next(m, s, s') && e < m.size && IsValid(s, e)
    ensures |s'.buckets| == |s.buckets| && s'.buckets[e] == s.buckets[e]
  {
    var t: nat, call :| t < |s.threads| && s' == Step(m, s, t, call);
    ValidIsImmutable(m, s, t, call, e);
  }

  /** A bucket keeps its key and value from the moment it is VALID until VALID is cleared. */
  lemma {:induction false} ValidBucketIsKept(m: Table, run: seq<State>, i: nat, j: nat, e: nat)
    requires IsRun(m, run) && i <= j < |run| && e < m.size
    requires forall k :: i <= k < j ==> Shape(m, run[k]) && IsValid(run[k], e)
    ensures Shape(m, run[i]) && Shape(m, run[j]) && run[j].buckets[e] == run[i].buckets[e]
    decreases j
  {
    RunPrefix(m, run, j + 1);
    InvHolds(m, run[..j + 1]);
    if i < j {
      ValidBucketIsKept(m, run, i, j - 1, e);
      RunPrefix(m, run, j);
      InvHolds(m, run[..j]);
      BucketNext(m, run[j - 1], run[j], e);
    }
  }

  // --- Find beside other calls ---------------------------------------------------------------

  ghost predicate NoRemover(s: State) {
    forall t :: 0 <= t < |s.threads| ==> !InRemove(s.threads[t])
  }

  ghost predicate FindOk(s: State, pc: Pc)
    requires !pc.Idle? ==> pc.b < |s.buckets| && pc.b / PER_WORD < |s.words|
  {
    && (pc.FindKey? ==> IsValid(s, pc.b))
    && (pc.FindValue? ==> IsValid(s, pc.b) && s.buckets[pc.b].key == pc.key)
  }

  ghost predicate FindInv(m: Table, s: State) {
    DataInv(m, s) && forall t :: 0 <= t < |s.threads| ==> FindOk(s, s.threads[t])
  }

  /** Without removers a VALID entry stays VALID. */
  lemma ValidStays(m: Table, s: State, t: nat, call: Call, e: nat)
    requires LockInv(m, s) && t < |s.threads| && NoRemover(s) && e < m.size && IsValid(s, e)
    ensures |Step(m, s, t, call).words| == |s.words| && IsValid(Step(m, s, t, call), e)
  {
    EntryStep(m, s, t, call, e);
    assert HoldsOk(s, s.threads[t]) && !InRemove(s.threads[t]);
  }

  lemma ProbeFindOk(m: Table, s: State, t: nat, call: Call)
    requires Shape(m, s) && t < |s.threads| && s.threads[t].FindProbe?
    ensures var s' := Step(m, s, t, call); Shape(m, s') && FindOk(s', s'.threads[t])
  {
    ShapeStep(m, s, t, call);
    var b := s.threads[t].b;
    TestValidReadsLane(s.Word(b), Shift(b));
  }

  lemma KeyFindOk(m: Table, s: State, t: nat, call: Call)
    requires Shape(m, s) && t < |s.threads| && s.threads[t].FindKey? && IsValid(s, s.threads[t].b)
    ensures var s' := Step(m, s, t, call); Shape(m, s') && FindOk(s', s'.threads[t])
  {
    ShapeStep(m, s, t, call);
  }

  lemma MoverFindOk(m: Table, s: State, t: nat, call: Call)
    requires FindInv(m, s) && t < |s.threads|
    ensures var s' := Step(m, s, t, call); Shape(m, s') && FindOk(s', s'.threads[t])
  {
    var pc := s.threads[t];
    assert FindOk(s, pc);
    if pc.FindProbe? {
      ProbeFindOk(m, s, t, call);
    } else if pc.FindKey? {
      KeyFindOk(m, s, t, call);
    } else {
      ShapeStep(m, s, t, call);
    }
  }

  lemma FindInvNext(m: Table, s: State, s': State)
    requires FindInv(m, s) && NoRemover(s) && Next(m, s, s')
    ensures FindInv(m, s')
  {
    var t: nat, call :| t < |s.threads| && s' == Step(m, s, t, call);
    DataInvStep(m, s, t, call);
    ShapeStep(m, s, t, call);
    MoverFindOk(m, s, t, call);
    forall u | 0 <= u < |s'.threads| && u != t ensures FindOk(s', s'.threads[u]) {
      var pc := s.threads[u];
      assert FindOk(s, pc);
      if pc.FindKey? || pc.FindValue? {
        ValidStays(m, s, t, call, pc.b);
        ValidIsImmutable(m, s, t, call, pc.b);
      }
    }
  }

  lemma {:induction false} FindInvHolds(m: Table, run: seq<State>)
    requires IsRun(m, run) && forall k :: 0 <= k < |run| ==> NoRemover(run[k])
    ensures FindInv(m, run[|run| - 1])
    decreases |run|
  {
    var n := |run| - 1;
    if n == 0 {
      DataInvInit(m, run[0]);
    } else {
      FindInvHolds(m, run[..n]);
      FindInvNext(m, run[n - 1], run[n]);
    }
  }

  /**
   In a run without Remove, a Find that is about to read its value reads the value of a
   completed Set of that very key, whatever Sets and Finds run beside it.
   */
  lemma FindReadsItsKey(m: Table, run: seq<State>, s: State, t: nat)
    requires IsRun(m, run) && s == run[|run| - 1] && forall k :: 0 <= k < |run| ==> NoRemover(run[k])
    requires t < |s.threads| && s.threads[t].FindValue?
    ensures Shape(m, s) && s.buckets[s.threads[t].b] == s.stored[s.threads[t].b]
    ensures s.stored[s.threads[t].b].key == s.threads[t].key
  {
    FindInvHolds(m, run);
    assert FindOk(s, s.threads[t]);
  }

  // --- Find beside Remove --------------------------------------------------------------------

  /** The call is for one of these keys. */
  ghost predicate Uses(K: iset<int>, call: Call) {
    match call
    case Set(item) => item.key in K
    case Find(key) => key in K
    case Remove(key) => key in K
  }

  ghost predicate NextWith(m: Table, K: iset<int>, s: State, s': State) {
    Shape(m, s) && exists t: nat, call :: t < |s.threads| && Uses(K, call) && s' == Step(m, s, t, call)
  }

  /** A run of any number of threads whose calls are all for keys in K. */
  ghost predicate IsRunWith(m: Table, K: iset<int>, run: seq<State>) {
    && 0 < |run|
    && if |run| == 1 then Init(m, run[0])
       else IsRunWith(m, K, run[..|run| - 1]) && NextWith(m, K, run[|run| - 2], run[|run| - 1])
  }

  ghost predicate ReachableWith(m: Table, K: iset<int>, s: State) {
    exists run :: IsRunWith(m, K, run) && run[|run| - 1] == s
  }

  /** A Find is about to read its value from a bucket that now holds another key. */
  ghost predicate WrongRead(s: State) {
    exists t :: 0 <= t < |s.threads| && Misreads(s, s.threads[t])
  }

  ghost predicate Misreads(s: State, pc: Pc) {
    pc.FindValue? && pc.b < |s.buckets| && s.buckets[pc.b].key != pc.key
  }

  ghost predicate ShareASlot(m: Table, a: int, b: int)
    requires 0 < m.size
  {
    exists i: nat, j: nat :: i < m.probes && j < m.probes && m.Slot(a, i) == m.Slot(b, j)
  }

  /** No two of these keys are probed for in the same bucket. */
  ghost predicate WindowsApart(m: Table, K: iset<int>)
    requires 0 < m.size
  {
    forall a, b :: a in K && b in K && a != b ==> !ShareASlot(m, a, b)
  }

  // If the windows are apart, a bucket is only ever written for the one key that is looked for there.

  ghost predicate InsideWindow(m: Table, K: iset<int>, s: State, pc: Pc)
    requires Shape(m, s) && (!pc.Idle? ==> pc.b < m.size)
  {
    && (InSet(pc) ==> pc.item.key in K)
    && (pc.SetProbe? ==> pc.b == m.Slot(pc.item.key, pc.i))
    && (pc.SetCas? ==> pc.i < m.probes && pc.b == m.Slot(pc.item.key, pc.i))
    && (pc.Writing() ==> InWindow(m, pc.item.key, pc.b))
    && (pc.FindProbe? || pc.FindKey? || pc.FindValue? ==> pc.key in K)
    && (pc.FindProbe? ==> pc.b == m.Slot(pc.key, pc.i))
    && (pc.FindKey? ==> pc.i < m.probes && pc.b == m.Slot(pc.key, pc.i))
    && (pc.FindValue? ==> InWindow(m, pc.key, pc.b) && s.buckets[pc.b].key == pc.key)
  }

  ghost predicate AllInside(m: Table, K: iset<int>, s: State) {
    Shape(m, s) && forall t :: 0 <= t < |s.threads| ==> InsideWindow(m, K, s, s.threads[t])
  }

  lemma SetterInside(m: Table, K: iset<int>, s: State, t: nat, call: Call)
    requires Shape(m, s) && t < |s.threads| && InSet(s.threads[t]) && InsideWindow(m, K, s, s.threads[t])
    ensures var s' := Step(m, s, t, call); Shape(m, s') && InsideWindow(m, K, s', s'.threads[t])
  {
    ShapeStep(m, s, t, call);
    var pc := s.threads[t];
    assert pc.SetProbe? ==> m.Slot(pc.item.key, pc.i + 1) == m.After(pc.b);
  }

  lemma FinderInside(m: Table, K: iset<int>, s: State, t: nat, call: Call)
    requires Shape(m, s) && t < |s.threads| && !InSet(s.threads[t]) && !InRemove(s.threads[t])
    requires InsideWindow(m, K, s, s.threads[t]) && Uses(K, call)
    ensures var s' := Step(m, s, t, call); Shape(m, s') && InsideWindow(m, K, s', s'.threads[t])
  {
    ShapeStep(m, s, t, call);
    var pc := s.threads[t];
    assert pc.FindProbe? || pc.FindKey? ==> m.Slot(pc.key, pc.i + 1) == m.After(pc.b);
  }

  lemma RemoverInside(m: Table, K: iset<int>, s: State, t: nat, call: Call)
    requires Shape(m, s) && t < |s.threads| && InRemove(s.threads[t])
    ensures var s' := Step(m, s, t, call); Shape(m, s') && InsideWindow(m, K, s', s'.threads[t])
  {
    ShapeStep(m, s, t, call);
  }

  lemma OneKeyPerBucket(m: Table, K: iset<int>, a: int, b: int, e: nat)
    requires 0 < m.size && WindowsApart(m, K) && a in K && b in K && InWindow(m, a, e) && InWindow(m, b, e)
    ensures a == b
  {
    var i: nat :| i < m.probes && e == m.Slot(a, i);
    var j: nat :| j < m.probes && e == m.Slot(b, j);
    assert ShareASlot(m, a, b);
  }

  /** A step writes a key into a bucket only when the bucket is in the window of that key. */
  lemma KeyStep(m: Table, s: State, t: nat, call: Call, e: nat)
    requires Shape(m, s) && t < |s.threads| && e < m.size
    ensures var s', pc := Step(m, s, t, call), s.threads[t];
            && |s'.buckets| == |s.buckets|
            && s'.buckets[e].key == if pc.SetKey? && pc.b == e then pc.item.key else s.buckets[e].key
  {
    if InSet(s.threads[t]) {
      SetterKeyStep(m, s, t, call, e);
    } else {
      OtherBucket(m, s, t, call);
    }
  }

  lemma SetterKeyStep(m: Table, s: State, t: nat, call: Call, e: nat)
    requires Shape(m, s) && t < |s.threads| && e < m.size && InSet(s.threads[t])
    ensures var s', pc := Step(m, s, t, call), s.threads[t];
            && |s'.buckets| == |s.buckets|
            && s'.buckets[e].key == if pc.SetKey? && pc.b == e then pc.item.key else s.buckets[e].key
  {
  }

  lemma OthersInside(m: Table, K: iset<int>, s: State, t: nat, call: Call, u: nat)
    requires AllInside(m, K, s) && WindowsApart(m, K) && t < |s.threads| && u < |s.threads| && u != t
    ensures var s' := Step(m, s, t, call); Shape(m, s') && InsideWindow(m, K, s', s'.threads[u])
  {
    ShapeStep(m, s, t, call);
    var pc, mover := s.threads[u], s.threads[t];
    assert InsideWindow(m, K, s, pc) && InsideWindow(m, K, s, mover);
    if pc.FindValue? {
      KeyStep(m, s, t, call, pc.b);
      if mover.SetKey? && mover.b == pc.b {
        OneKeyPerBucket(m, K, pc.key, mover.item.key, pc.b);
      }
    }
  }

  lemma AllInsideNext(m: Table, K: iset<int>, s: State, s': State)
    requires AllInside(m, K, s) && WindowsApart(m, K) && NextWith(m, K, s, s')
    ensures AllInside(m, K, s')
  {
    var t: nat, call :| t < |s.threads| && Uses(K, call) && s' == Step(m, s, t, call);
    ShapeStep(m, s, t, call);
    assert InsideWindow(m, K, s, s.threads[t]);
    forall u | 0 <= u < |s'.threads| ensures InsideWindow(m, K, s', s'.threads[u]) {
      if u != t {
        OthersInside(m, K, s, t, call, u);
      } else if InSet(s.threads[t]) {
        SetterInside(m, K, s, t, call);
      } else if InRemove(s.threads[t]) {
        RemoverInside(m, K, s, t, call);
      } else {
        FinderInside(m, K, s, t, call);
      }
    }
  }

  lemma {:induction false} AllInsideHolds(m: Table, K: iset<int>, run: seq<State>)
    requires IsRunWith(m, K, run) && 0 < m.size && WindowsApart(m, K)
    ensures AllInside(m, K, run[|run| - 1])
    decreases |run|
  {
    var n := |run| - 1;
    if n > 0 {
      AllInsideHolds(m, K, run[..n]);
      assert run[..n][n - 1] == run[n - 1];
      AllInsideNext(m, K, run[n - 1], run[n]);
    }
  }

  // If two windows meet, a Remove and a Set put the other key under a Find that has compared its own.

  ghost predicate Closed(m: Table, K: iset<int>, P: State -> bool) {
    forall s, t: nat, call :: P(s) && Shape(m, s) && t < |s.threads| && Uses(K, call) ==> P(Step(m, s, t, call))
  }

  lemma ClosedMoves(m: Table, K: iset<int>, P: State -> bool, t: nat, call: Call)
    requires Closed(m, K, P) && Uses(K, call)
    ensures MovesBy(m, P, t, call)
  {
  }

  function TwoThreads(m: Table): (s: State)
    requires m.Valid()
    ensures Shape(m, s)
  {
    State(seq(m.size / PER_WORD + 1, _ => 0), seq(m.size, _ => Bucket(0, 0)), [Idle, Idle],
          seq(m.size, _ => Bucket(0, 0)), [Call.Find(0), Call.Find(0)], [])
  }

  /** The bucket of a.key's hash is the j-th slot of b.key, and none of b.key's slots before. */
  ghost predicate Meets(m: Table, a: Bucket, b: Bucket, j: nat)
    requires 0 < m.size
  {
    && j < m.probes && m.Slot(a.key, 0) == m.Slot(b.key, j)
    && forall k: nat :: k < j ==> m.Slot(b.key, k) != m.Slot(b.key, j)
  }

  lemma {:induction false} SlotShift(m: Table, a: int, b: int, x: nat, y: nat, d: nat)
    requires 0 < m.size
    ensures m.Slot(a, x) == m.Slot(b, y) <==> m.Slot(a, x + d) == m.Slot(b, y + d)
    decreases d
  {
    if d > 0 {
      SlotShift(m, a, b, x, y, d - 1);
    }
  }

  /** The slots before the meeting point are different buckets. */
  lemma SlotsApart(m: Table, a: Bucket, b: Bucket, j: nat, k: nat, l: nat)
    requires 0 < m.size && Meets(m, a, b, j) && k < l <= j
    ensures m.Slot(b.key, k) != m.Slot(b.key, l)
  {
    SlotShift(m, b.key, b.key, k, l, j - l);
    assert m.Slot(b.key, k + (j - l)) != m.Slot(b.key, j);
  }

  /** a is stored at its hash slot, and b in its first n slots; the rest of b's slots are free. */
  ghost predicate Stacked(m: Table, s: State, a: Bucket, b: Bucket, j: nat, n: nat) {
    && Shape(m, s) && s.threads == [Idle, Idle] && Calm(m, s)
    && Bits(s, m.Slot(a.key, 0)) == VALID && s.buckets[m.Slot(a.key, 0)] == a
    && (forall k: nat :: k < n ==> Bits(s, m.Slot(b.key, k)) != 0)
    && (forall k: nat :: n <= k < j ==> Bits(s, m.Slot(b.key, k)) == 0)
  }

  lemma StackOne(m: Table, K: iset<int>, P: State -> bool, s: State, a: Bucket, b: Bucket, j: nat, n: nat) returns (s': State)
    requires m.Valid() && Closed(m, K, P) && P(s) && a.key in K && b.key in K
    requires Meets(m, a, b, j) && n < j && Stacked(m, s, a, b, j, n)
    ensures P(s') && Stacked(m, s', a, b, j, n + 1)
  {
    ClosedMoves(m, K, P, 1, Call.Set(b));
    s' := SetCall(m, P, s, 1, b, n);
    CellChanges(m, s, s', m.Slot(b.key, n), b);
    SlotsApart(m, a, b, j, n, j);
    forall k: nat | k < n + 1 ensures Bits(s', m.Slot(b.key, k)) != 0 {
      if k < n {
        SlotsApart(m, a, b, j, k, n);
      }
    }
    forall k: nat | n + 1 <= k < j ensures Bits(s', m.Slot(b.key, k)) == 0 {
      SlotsApart(m, a, b, j, n, k);
    }
  }

  lemma {:induction false} StackUp(m: Table, K: iset<int>, P: State -> bool, a: Bucket, b: Bucket, j: nat, n: nat) returns (s: State)
    requires m.Valid() && Closed(m, K, P) && P(TwoThreads(m)) && a.key in K && b.key in K
    requires Meets(m, a, b, j) && n <= j
    ensures P(s) && Stacked(m, s, a, b, j, n)
    decreases n
  {
    if n == 0 {
      var s0 := TwoThreads(m);
      assert forall e :: 0 <= e < m.size ==> Bits(s0, e) == 0;
      ClosedMoves(m, K, P, 1, Call.Set(a));
      s := SetCall(m, P, s0, 1, a, 0);
      CellChanges(m, s0, s, m.Slot(a.key, 0), a);
      forall k: nat | k < j ensures Bits(s, m.Slot(b.key, k)) == 0 {
        assert m.Slot(b.key, k) != m.Slot(a.key, 0);
      }
    } else {
      var before := StackUp(m, K, P, a, b, j, n - 1);
      s := StackOne(m, K, P, before, a, b, j, n - 1);
    }
  }

  lemma FindMixesUp(m: Table, K: iset<int>, P: State -> bool, a: Bucket, b: Bucket, j: nat) returns (s: State)
    requires m.Valid() && Closed(m, K, P) && P(TwoThreads(m)) && a.key in K && b.key in K && a.key != b.key
    requires Meets(m, a, b, j)
    ensures P(s) && WrongRead(s)
  {
    var h := m.Slot(a.key, 0);
    var s1 := StackUp(m, K, P, a, b, j, j);
    assert Cells(m, s1)[h] == Full(a);
    ClosedMoves(m, K, P, 0, Call.Find(a.key));
    var s2 := FindHalfway(m, P, s1, 0, a.key, 0);
    assert s2.words == s1.words && s2.buckets == s1.buckets;
    assert forall e :: 0 <= e < m.size ==> Bits(s2, e) == Bits(s1, e);
    ClosedMoves(m, K, P, 1, Call.Remove(a.key));
    var s3 := RemoveCall(m, P, s2, 1, a.key, 0);
    forall k: nat | k < j ensures Bits(s3, m.Slot(b.key, k)) != 0 {
      assert m.Slot(b.key, k) != h && Bits(s1, m.Slot(b.key, k)) != 0;
    }
    ClosedMoves(m, K, P, 1, Call.Set(b));
    s := SetCall(m, P, s3, 1, b, j);
    assert Misreads(s, s.threads[0]);
  }

  /** The first of a key's slots that is bucket e. */
  lemma {:induction false} FirstHit(m: Table, key: int, e: nat, k: nat) returns (f: nat)
    requires 0 < m.size && m.Slot(key, k) == e
    ensures f <= k && m.Slot(key, f) == e && forall l: nat :: l < f ==> m.Slot(key, l) != e
    decreases k
  {
    f := k;
    if l: nat :| l < k && m.Slot(key, l) == e {
      f := FirstHit(m, key, e, l);
    }
  }

  lemma MeetingPoint(m: Table, a: Bucket, b: Bucket, i: nat, j: nat) returns (k: nat)
    requires 0 < m.size && i <= j < m.probes && m.Slot(a.key, i) == m.Slot(b.key, j)
    ensures Meets(m, a, b, k)
  {
    SlotShift(m, a.key, b.key, 0, j - i, i);
    k := FirstHit(m, b.key, m.Slot(a.key, 0), j - i);
  }

  lemma ReachableWithStep(m: Table, K: iset<int>, s: State, t: nat, call: Call)
    requires ReachableWith(m, K, s) && Shape(m, s) && t < |s.threads| && Uses(K, call)
    ensures ReachableWith(m, K, Step(m, s, t, call))
  {
    var run :| IsRunWith(m, K, run) && run[|run| - 1] == s;
    var run' := run + [Step(m, s, t, call)];
    assert run'[..|run|] == run;
    assert NextWith(m, K, s, Step(m, s, t, call));
    assert IsRunWith(m, K, run');
  }

  lemma ReachableWithClosed(m: Table, K: iset<int>) returns (P: State -> bool)
    requires m.Valid()
    ensures Closed(m, K, P) && P(TwoThreads(m)) && forall s :: P(s) <==> ReachableWith(m, K, s)
  {
    P := s => ReachableWith(m, K, s);
    assert IsRunWith(m, K, [TwoThreads(m)]);
    assert [TwoThreads(m)][0] == TwoThreads(m);
    forall s, t: nat, call | P(s) && Shape(m, s) && t < |s.threads| && Uses(K, call) ensures P(Step(m, s, t, call)) {
      ReachableWithStep(m, K, s, t, call);
    }
  }

  /** For keys that share a slot some run has a Find that reads the value of the other key. */
  lemma FindCanReadAnotherKey(m: Table, K: iset<int>, a: Bucket, b: Bucket) returns (s: State)
    requires m.Valid() && a.key in K && b.key in K && a.key != b.key && ShareASlot(m, a.key, b.key)
    ensures ReachableWith(m, K, s) && WrongRead(s)
  {
    var i: nat, j: nat :| i < m.probes && j < m.probes && m.Slot(a.key, i) == m.Slot(b.key, j);
    var P := ReachableWithClosed(m, K);
    if i <= j {
      var k := MeetingPoint(m, a, b, i, j);
      s := FindMixesUp(m, K, P, a, b, k);
    } else {
      var k := MeetingPoint(m, b, a, j, i);
      s := FindMixesUp(m, K, P, b, a, k);
    }
  }

  /**
   In all runs on these keys, whatever Sets, Finds and Removes run beside it, a Find reads its value
   from a bucket that holds its key, if and only if no two of the keys are probed for in the same bucket.
   */
  lemma FindSafeIff(m: Table, K: iset<int>)
    requires m.Valid()
    ensures (forall s :: ReachableWith(m, K, s) ==> !WrongRead(s)) <==> WindowsApart(m, K)
  {
    if WindowsApart(m, K) {
      forall s | ReachableWith(m, K, s) ensures !WrongRead(s) {
        var run :| IsRunWith(m, K, run) && run[|run| - 1] == s;
        AllInsideHolds(m, K, run);
        forall t | 0 <= t < |s.threads| ensures !Misreads(s, s.threads[t]) {
          assert InsideWindow(m, K, s, s.threads[t]);
        }
      }
    } else {
      var a, b :| a in K && b in K && a != b && ShareASlot(m, a, b);
      var s := FindCanReadAnotherKey(m, K, Bucket(a, 0), Bucket(b, 1));
    }
  }

  // --- Remove on an empty table --------------------------------------------------------------

  lemma RemoveProbes(m: Table, s: State, t: nat, call: Call)
    requires Shape(m, s) && t < |s.threads| && s.threads[t].RemProbe?
    requires forall e :: 0 <= e < m.size ==> Bits(s, e) != VALID
    ensures var s' := Step(m, s, t, call); Shape(m, s') && s'.threads[t].RemProbe? && s'.words == s.words
  {
    ShapeStep(m, s, t, call);
    var b := s.threads[t].b;
    TestRemovableReadsLane(s.Word(b), Shift(b));
    assert Bits(s, b) != VALID;
  }

  /** Thread t makes n steps in a row. */
  function Steps(m: Table, s: State, t: nat, call: Call, n: nat): (s': State)
    requires Shape(m, s) && t < |s.threads|
    ensures Shape(m, s') && |s'.threads| == |s.threads|
    decreases n
  {
    if n == 0 then s
    else
      ShapeStep(m, s, t, call);
      Steps(m, Step(m, s, t, call), t, call, n - 1)
  }

  /** Alone on a table without a VALID entry, Remove never returns. */
  lemma {:induction false} RemoveNeverReturns(m: Table, s: State, t: nat, call: Call, n: nat)
    requires Shape(m, s) && t < |s.threads| && s.threads[t].RemProbe?
    requires forall e :: 0 <= e < m.size ==> Bits(s, e) != VALID
    ensures Steps(m, s, t, call, n).threads[t].RemProbe?
    decreases n
  {
    if n > 0 {
      RemoveProbes(m, s, t, call);
      var s' := Step(m, s, t, call);
      assert forall e :: 0 <= e < m.size ==> Bits(s', e) == Bits(s, e);
      RemoveNeverReturns(m, s', t, call, n - 1);
    }
  }
}
