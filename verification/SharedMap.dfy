/**
 The shared hash map under concurrency: any number of threads call Set, Find and Remove, and
 every access to a bitmap word or to a field of a bucket is a step of its own.
 */
module SharedMap {
  import opened Bit2Map

  datatype Bucket = Bucket(key: int, value: int)

  /** Number of buckets, probes per operation (max_collisions + 1), and any hash function. */
  datatype Table = Table(size: nat, probes: nat, hash: int -> nat) {
    predicate Valid() { 0 < size && 0 < probes }

    /** The i-th slot probed for a key. */
    function Slot(key: int, i: nat): (b: nat)
      requires 0 < size
      ensures b < size
    {
      if i == 0 then hash(key) % size else After(Slot(key, i - 1))
    }

    function After(b: nat): (r: nat)
      requires b < size
      ensures r < size
    {
      if b + 1 == size then 0 else b + 1
    }
  }

  lemma AfterIsMod(m: Table, b: nat)
    requires b < m.size
    ensures m.After(b) == (b + 1) % m.size
  {
  }

  datatype Pc =
    | Idle
    | SetProbe(item: Bucket, i: nat, b: nat)
    | SetCas(item: Bucket, i: nat, b: nat, tmp: bv32)
    | SetKey(item: Bucket, b: nat)
    | SetValue(item: Bucket, b: nat)
    | SetCommit(item: Bucket, b: nat)
    | SetCommitCas(item: Bucket, b: nat, tmp: bv32)
    | FindProbe(key: int, i: nat, b: nat)
    | FindKey(key: int, i: nat, b: nat)
    | FindValue(key: int, b: nat)
    | RemProbe(key: int, i: nat, b: nat, failed: nat)
    | RemCas(key: int, i: nat, b: nat, failed: nat, tmp: bv32)
    | RemCompare(key: int, b: nat, failed: nat)
    | RemClear(key: int, b: nat)
    | RemIgnore(key: int, b: nat, failed: nat)
    | RemIgnoreCas(key: int, b: nat, failed: nat, tmp: bv32)
  {
    /** Between a successful BeginModify and its CommitModify. */
    predicate Writing() { SetKey? || SetValue? || SetCommit? || SetCommitCas? }

    /** Between a successful BeginRemove and its CommitRemove or IgnoreRemove. */
    predicate Removing() { RemCompare? || RemClear? || RemIgnore? || RemIgnoreCas? }

    predicate Holds(e: nat) { (Writing() || Removing()) && b == e }
  }

  datatype Call = Set(item: Bucket) | Find(key: int) | Remove(key: int)

  /** Find returns a value or, like Set and Remove, whether it succeeded. */
  datatype Answer = Done(ok: bool) | Found(value: int)

  datatype Return = Return(thread: nat, call: Call, answer: Answer)

  /**
   The shared memory and the threads. For the record, `stored` has for every bucket the item the
   last committed Set put there, `called` the call that each thread last began, and `returned`
   the calls that have returned.
   */
  datatype State = State(
    words: seq<bv32>, buckets: seq<Bucket>, threads: seq<Pc>,
    stored: seq<Bucket>, called: seq<Call>, returned: seq<Return>)
  {
    function At(t: nat, pc: Pc): (s: State)
      requires t < |threads|
    {
      this.(threads := threads[t := pc])
    }

    function Begin(t: nat, call: Call, pc: Pc): (s: State)
      requires t < |threads| == |called|
    {
      At(t, pc).(called := called[t := call])
    }

    function End(t: nat, answer: Answer): (s: State)
      requires t < |threads| == |called|
    {
      At(t, Idle).(returned := returned + [Return(t, called[t], answer)])
    }

    function Word(b: nat): (w: bv32)
      requires b / PER_WORD < |words|
    {
      words[b / PER_WORD]
    }

    function WithWord(b: nat, w: bv32): (s: State)
      requires b / PER_WORD < |words|
    {
      this.(words := words[b / PER_WORD := w])
    }
  }

  predicate Shape(m: Table, s: State) {
    && m.Valid() && |s.buckets| == m.size == |s.stored| && m.size <= PER_WORD * |s.words|
    && |s.called| == |s.threads|
    && forall t :: 0 <= t < |s.threads| && !s.threads[t].Idle? ==> s.threads[t].b < m.size
  }

  predicate InSet(pc: Pc) {
    pc.SetProbe? || pc.SetCas? || pc.Writing()
  }

  predicate InFind(pc: Pc) {
    pc.FindProbe? || pc.FindKey? || pc.FindValue?
  }

  predicate InRemove(pc: Pc) {
    pc.RemProbe? || pc.RemCas? || pc.Removing()
  }

  /** Thread t makes its next access; an idle thread starts `call`. */
  function Step(m: Table, s: State, t: nat, call: Call): (s': State)
    requires Shape(m, s) && t < |s.threads|
  {
    var pc := s.threads[t];
    if InSet(pc) then SetStep(m, s, t)
    else if InFind(pc) then FindStep(m, s, t)
    else if InRemove(pc) then RemoveStep(m, s, t)
    else
      match call
      case Set(item) => s.Begin(t, call, SetProbe(item, 0, m.Slot(item.key, 0)))
      case Find(key) => s.Begin(t, call, FindProbe(key, 0, m.Slot(key, 0)))
      case Remove(key) => s.Begin(t, call, RemProbe(key, 0, m.Slot(key, 0), 0))
  }

  function SetStep(m: Table, s: State, t: nat): (s': State)
    requires Shape(m, s) && t < |s.threads| && InSet(s.threads[t])
  {
    match s.threads[t]
    case SetProbe(item, i, b) =>
      if i >= m.probes then s.End(t, Done(false))
      else if TestEmpty(s.Word(b), Shift(b)) then s.At(t, SetCas(item, i, b, s.Word(b)))
      else s.At(t, SetProbe(item, i + 1, m.After(b)))
    case SetCas(item, i, b, tmp) =>
      if s.Word(b) == tmp then s.At(t, SetKey(item, b)).WithWord(b, Acquired(tmp, Shift(b)))
      else s.At(t, SetProbe(item, i, b))
    case SetKey(item, b) =>
      s.At(t, SetValue(item, b)).(buckets := s.buckets[b := s.buckets[b].(key := item.key)])
    case SetValue(item, b) =>
      s.At(t, SetCommit(item, b)).(buckets := s.buckets[b := s.buckets[b].(value := item.value)])
    case SetCommit(item, b) => s.At(t, SetCommitCas(item, b, s.Word(b)))
    case SetCommitCas(item, b, tmp) =>
      if s.Word(b) == tmp then
        s.End(t, Done(true)).WithWord(b, Committed(tmp, Shift(b))).(stored := s.stored[b := item])
      else s.At(t, SetCommit(item, b))
  }

  function FindStep(m: Table, s: State, t: nat): (s': State)
    requires Shape(m, s) && t < |s.threads| && InFind(s.threads[t])
  {
    match s.threads[t]
    case FindProbe(key, i, b) =>
      if i >= m.probes then s.End(t, Done(false))
      else if TestValid(s.Word(b), Shift(b)) then s.At(t, FindKey(key, i, b))
      else s.At(t, FindProbe(key, i + 1, m.After(b)))
    case FindKey(key, i, b) =>
      if s.buckets[b].key == key then s.At(t, FindValue(key, b))
      else s.At(t, FindProbe(key, i + 1, m.After(b)))
    case FindValue(key, b) => s.End(t, Found(s.buckets[b].value))
  }

  /** Remove that meets another key goes back to the same bucket, or gives up. */
  function RemoveStep(m: Table, s: State, t: nat): (s': State)
    requires Shape(m, s) && t < |s.threads| && InRemove(s.threads[t])
  {
    match s.threads[t]
    case RemProbe(key, i, b, failed) =>
      if i >= m.probes then s.At(t, RemProbe(key, 0, b, failed))
      else if TestRemovable(s.Word(b), Shift(b)) then s.At(t, RemCas(key, i, b, failed, s.Word(b)))
      else s.At(t, RemProbe(key, i + 1, m.After(b), failed))
    case RemCas(key, i, b, failed, tmp) =>
      if s.Word(b) == tmp then s.At(t, RemCompare(key, b, failed)).WithWord(b, Seized(tmp, Shift(b)))
      else s.At(t, RemProbe(key, i, b, failed))
    case RemCompare(key, b, failed) =>
      s.At(t, if s.buckets[b].key == key then RemClear(key, b) else RemIgnore(key, b, failed))
    case RemClear(key, b) => s.End(t, Done(true)).WithWord(b, Cleared(s.Word(b), Shift(b)))
    case RemIgnore(key, b, failed) => s.At(t, RemIgnoreCas(key, b, failed, s.Word(b)))
    case RemIgnoreCas(key, b, failed, tmp) =>
      if s.Word(b) != tmp then s.At(t, RemIgnore(key, b, failed))
      else if failed + 1 == m.probes then s.End(t, Done(false)).WithWord(b, Committed(tmp, Shift(b)))
      else s.At(t, RemProbe(key, 0, b, failed + 1)).WithWord(b, Committed(tmp, Shift(b)))
  }

  // --- Entries as per-bucket locks -------------------------------------------------------

  function Bits(s: State, e: nat): (entry: bv32)
    requires e / PER_WORD < |s.words|
  {
    Entry(s.words, e)
  }

  /** What a thread holding an entry relies on. */
  ghost predicate HoldsOk(s: State, pc: Pc)
    requires (pc.Writing() || pc.Removing() || pc.SetCas? || pc.RemCas?) ==> pc.b / PER_WORD < |s.words|
  {
    && (pc.Writing() ==> Bits(s, pc.b) == BEING_SET)
    && (pc.Removing() ==> Bits(s, pc.b) == OWNED)
    && (pc.SetCas? ==> Lane(pc.tmp, Shift(pc.b)) == 0)
    && (pc.RemCas? ==> Lane(pc.tmp, Shift(pc.b)) == VALID)
  }

  ghost predicate LockInv(m: Table, s: State) {
    && Shape(m, s)
    && (forall t :: 0 <= t < |s.threads| ==> HoldsOk(s, s.threads[t]))
    && (forall t, u, e :: 0 <= t < u < |s.threads| && 0 <= e < m.size ==> !(s.threads[t].Holds(e) && s.threads[u].Holds(e)))
    && (forall e :: 0 <= e < m.size && (Bits(s, e) == BEING_SET || Bits(s, e) == OWNED) ==>
          exists t :: 0 <= t < |s.threads| && s.threads[t].Holds(e))
  }

  /** The moves an entry can make. */
  predicate Move(from: bv32, target: bv32) {
    || target == from
    || (from == 0 && target == BEING_SET)
    || (from == BEING_SET && target == VALID)
    || (from == VALID && target == OWNED)
    || (from == OWNED && (target == 0 || target == VALID))
  }

  /** The step of this thread replaces the word of its entry. */
  predicate Swaps(s: State, pc: Pc)
    requires !pc.Idle? ==> pc.b / PER_WORD < |s.words|
  {
    pc.RemClear? || ((pc.SetCas? || pc.SetCommitCas? || pc.RemCas? || pc.RemIgnoreCas?) && s.Word(pc.b) == pc.tmp)
  }

  /** The entry it leaves there. */
  function SwapsTo(pc: Pc): (entry: bv32) {
    if pc.RemClear? then 0 else if pc.SetCas? then BEING_SET else if pc.RemCas? then OWNED else VALID
  }

  function NewWord(s: State, pc: Pc): (w: bv32)
    requires !pc.Idle? && pc.b / PER_WORD < |s.words|
  {
    var w, sh := s.Word(pc.b), Shift(pc.b);
    if pc.RemClear? then Cleared(w, sh) else if pc.SetCas? then Acquired(w, sh)
    else if pc.RemCas? then Seized(w, sh) else Committed(w, sh)
  }

  lemma WordsStep(m: Table, s: State, t: nat, call: Call)
    requires Shape(m, s) && t < |s.threads|
    ensures var s', pc := Step(m, s, t, call), s.threads[t];
            s'.words == if Swaps(s, pc) then s.words[pc.b / PER_WORD := NewWord(s, pc)] else s.words
  {
  }

  /** A step changes at most one entry, in the way its program point says. */
  lemma EntryStep(m: Table, s: State, t: nat, call: Call, e: nat)
    requires LockInv(m, s) && t < |s.threads| && e < m.size
    ensures var s', pc := Step(m, s, t, call), s.threads[t];
            && |s'.words| == |s.words|
            && Bits(s', e) == if Swaps(s, pc) && pc.b == e then SwapsTo(pc) else Bits(s, e)
  {
    var pc := s.threads[t];
    WordsStep(m, s, t, call);
    if Swaps(s, pc) {
      assert HoldsOk(s, pc);
      if pc.b == e {
        UpdatesOwnLane(s.Word(e), Shift(e));
      } else {
        UpdateKeepsOthers(s.words, pc.b, NewWord(s, pc), e);
      }
    }
  }

  lemma SetterShape(m: Table, s: State, t: nat, call: Call)
    requires Shape(m, s) && t < |s.threads| && InSet(s.threads[t])
    ensures var s' := Step(m, s, t, call); Shape(m, s') && s'.threads == s.threads[t := s'.threads[t]]
  {
  }

  lemma RemoverShape(m: Table, s: State, t: nat, call: Call)
    requires Shape(m, s) && t < |s.threads| && InRemove(s.threads[t])
    ensures var s' := Step(m, s, t, call); Shape(m, s') && s'.threads == s.threads[t := s'.threads[t]]
  {
  }

  lemma FinderShape(m: Table, s: State, t: nat, call: Call)
    requires Shape(m, s) && t < |s.threads| && !InSet(s.threads[t]) && !InRemove(s.threads[t])
    ensures var s' := Step(m, s, t, call); Shape(m, s') && s'.threads == s.threads[t := s'.threads[t]]
  {
  }

  lemma ShapeStep(m: Table, s: State, t: nat, call: Call)
    requires Shape(m, s) && t < |s.threads|
    ensures var s' := Step(m, s, t, call); Shape(m, s') && s'.threads == s.threads[t := s'.threads[t]]
  {
    if InSet(s.threads[t]) {
      SetterShape(m, s, t, call);
    } else if InRemove(s.threads[t]) {
      RemoverShape(m, s, t, call);
    } else {
      FinderShape(m, s, t, call);
    }
  }

  lemma Alone(m: Table, s: State, t: nat, u: nat, e: nat)
    requires LockInv(m, s) && t < |s.threads| && u < |s.threads| && t != u && e < m.size && s.threads[u].Holds(e)
    ensures !s.threads[t].Holds(e)
  {
    var a, b := if t < u then t else u, if t < u then u else t;
    assert !(s.threads[a].Holds(e) && s.threads[b].Holds(e));
  }

  /** Nobody swaps the entry that another thread holds. */
  lemma HeldIsKept(m: Table, s: State, t: nat, call: Call, u: nat, e: nat)
    requires LockInv(m, s) && t < |s.threads| && u < |s.threads| && t != u && e < m.size && s.threads[u].Holds(e)
    ensures |Step(m, s, t, call).words| == |s.words| && Bits(Step(m, s, t, call), e) == Bits(s, e)
  {
    EntryStep(m, s, t, call, e);
    Alone(m, s, t, u, e);
    assert HoldsOk(s, s.threads[t]) && HoldsOk(s, s.threads[u]);
  }

  lemma SetProbeHoldsOk(m: Table, s: State, t: nat, call: Call)
    requires LockInv(m, s) && t < |s.threads| && s.threads[t].SetProbe?
    ensures var s' := Step(m, s, t, call); Shape(m, s') && t < |s'.threads| && HoldsOk(s', s'.threads[t])
  {
    ShapeStep(m, s, t, call);
    var b := s.threads[t].b;
    TestEmptyReadsLane(s.Word(b), Shift(b));
  }

  lemma RemProbeHoldsOk(m: Table, s: State, t: nat, call: Call)
    requires LockInv(m, s) && t < |s.threads| && s.threads[t].RemProbe?
    ensures var s' := Step(m, s, t, call); Shape(m, s') && t < |s'.threads| && HoldsOk(s', s'.threads[t])
  {
    ShapeStep(m, s, t, call);
    var b := s.threads[t].b;
    TestRemovableReadsLane(s.Word(b), Shift(b));
  }

  lemma WriterHoldsOk(m: Table, s: State, t: nat, call: Call)
    requires LockInv(m, s) && t < |s.threads| && (s.threads[t].SetCas? || s.threads[t].Writing())
    ensures var s' := Step(m, s, t, call); Shape(m, s') && t < |s'.threads| && HoldsOk(s', s'.threads[t])
  {
    ShapeStep(m, s, t, call);
    assert HoldsOk(s, s.threads[t]);
    EntryStep(m, s, t, call, s.threads[t].b);
  }

  lemma RemoverHoldsOk(m: Table, s: State, t: nat, call: Call)
    requires LockInv(m, s) && t < |s.threads| && (s.threads[t].RemCas? || s.threads[t].Removing())
    ensures var s' := Step(m, s, t, call); Shape(m, s') && t < |s'.threads| && HoldsOk(s', s'.threads[t])
  {
    ShapeStep(m, s, t, call);
    assert HoldsOk(s, s.threads[t]);
    EntryStep(m, s, t, call, s.threads[t].b);
  }

  lemma FinderHoldsOk(m: Table, s: State, t: nat, call: Call)
    requires Shape(m, s) && t < |s.threads|
    requires var pc := s.threads[t]; pc.Idle? || pc.FindProbe? || pc.FindKey? || pc.FindValue?
    ensures var s' := Step(m, s, t, call); Shape(m, s') && t < |s'.threads| && HoldsOk(s', s'.threads[t])
  {
    ShapeStep(m, s, t, call);
  }

  lemma MoverHoldsOk(m: Table, s: State, t: nat, call: Call)
    requires LockInv(m, s) && t < |s.threads|
    ensures var s' := Step(m, s, t, call); Shape(m, s') && t < |s'.threads| && HoldsOk(s', s'.threads[t])
  {
    var pc := s.threads[t];
    if pc.SetProbe? {
      SetProbeHoldsOk(m, s, t, call);
    } else if pc.RemProbe? {
      RemProbeHoldsOk(m, s, t, call);
    } else if pc.SetCas? || pc.Writing() {
      WriterHoldsOk(m, s, t, call);
    } else if pc.RemCas? || pc.Removing() {
      RemoverHoldsOk(m, s, t, call);
    } else {
      FinderHoldsOk(m, s, t, call);
    }
  }

  lemma SetterHolds(m: Table, s: State, t: nat, call: Call, e: nat)
    requires Shape(m, s) && t < |s.threads| && e < m.size && InSet(s.threads[t])
    ensures var s', pc := Step(m, s, t, call), s.threads[t];
            && t < |s'.threads|
            && (s'.threads[t].Holds(e) <==>
                  if Swaps(s, pc) then pc.b == e && (pc.SetCas? || pc.RemCas?) else pc.Holds(e))
  {
  }

  lemma RemoverHolds(m: Table, s: State, t: nat, call: Call, e: nat)
    requires Shape(m, s) && t < |s.threads| && e < m.size && InRemove(s.threads[t])
    ensures var s', pc := Step(m, s, t, call), s.threads[t];
            && t < |s'.threads|
            && (s'.threads[t].Holds(e) <==>
                  if Swaps(s, pc) then pc.b == e && (pc.SetCas? || pc.RemCas?) else pc.Holds(e))
  {
  }

  lemma FinderHolds(m: Table, s: State, t: nat, call: Call, e: nat)
    requires Shape(m, s) && t < |s.threads| && !InSet(s.threads[t]) && !InRemove(s.threads[t])
    ensures t < |Step(m, s, t, call).threads| && !Step(m, s, t, call).threads[t].Holds(e)
  {
  }

  /** How the held entry of the moving thread changes. */
  lemma MoverHolds(m: Table, s: State, t: nat, call: Call, e: nat)
    requires Shape(m, s) && t < |s.threads| && e < m.size
    ensures var s', pc := Step(m, s, t, call), s.threads[t];
            && t < |s'.threads|
            && (s'.threads[t].Holds(e) <==>
                  if Swaps(s, pc) then pc.b == e && (pc.SetCas? || pc.RemCas?) else pc.Holds(e))
  {
    if InSet(s.threads[t]) {
      SetterHolds(m, s, t, call, e);
    } else if InRemove(s.threads[t]) {
      RemoverHolds(m, s, t, call, e);
    } else {
      FinderHolds(m, s, t, call, e);
    }
  }

  lemma AllHoldOk(m: Table, s: State, t: nat, call: Call, u: nat)
    requires LockInv(m, s) && t < |s.threads| && u < |s.threads|
    ensures var s' := Step(m, s, t, call); Shape(m, s') && u < |s'.threads| && HoldsOk(s', s'.threads[u])
  {
    if u == t {
      MoverHoldsOk(m, s, t, call);
    } else {
      ShapeStep(m, s, t, call);
      assert HoldsOk(s, s.threads[u]);
      if s.threads[u].Writing() || s.threads[u].Removing() {
        HeldIsKept(m, s, t, call, u, s.threads[u].b);
      }
    }
  }

  lemma StaysExclusive(m: Table, s: State, t: nat, call: Call, u: nat, v: nat, e: nat)
    requires LockInv(m, s) && t < |s.threads| && u < v < |s.threads| && e < m.size
    ensures var s' := Step(m, s, t, call);
            |s'.threads| == |s.threads| && !(s'.threads[u].Holds(e) && s'.threads[v].Holds(e))
  {
    ShapeStep(m, s, t, call);
    assert !(s.threads[u].Holds(e) && s.threads[v].Holds(e));
    StaysAlone(m, s, t, call, e);
  }

  lemma LockInvStep(m: Table, s: State, t: nat, call: Call)
    requires LockInv(m, s) && t < |s.threads|
    ensures LockInv(m, Step(m, s, t, call))
  {
    var s' := Step(m, s, t, call);
    ShapeStep(m, s, t, call);
    forall u | 0 <= u < |s'.threads| ensures HoldsOk(s', s'.threads[u]) {
      AllHoldOk(m, s, t, call, u);
    }
    forall u, v, e | 0 <= u < v < |s'.threads| && 0 <= e < m.size
      ensures !(s'.threads[u].Holds(e) && s'.threads[v].Holds(e))
    {
      StaysExclusive(m, s, t, call, u, v, e);
    }
    forall e | 0 <= e < m.size && (Bits(s', e) == BEING_SET || Bits(s', e) == OWNED)
      ensures exists u :: 0 <= u < |s'.threads| && s'.threads[u].Holds(e)
    {
      StaysHeld(m, s, t, call, e);
    }
  }

  /** A thread that acquires an entry is the only one to hold it. */
  lemma StaysAlone(m: Table, s: State, t: nat, call: Call, e: nat)
    requires LockInv(m, s) && t < |s.threads| && e < m.size
    ensures var s' := Step(m, s, t, call);
            && |s'.threads| == |s.threads|
            && (s'.threads[t].Holds(e) ==>
                  s.threads[t].Holds(e) || forall u :: 0 <= u < |s.threads| && u != t ==> !s.threads[u].Holds(e))
  {
    ShapeStep(m, s, t, call);
    MoverHolds(m, s, t, call, e);
    var pc := s.threads[t];
    assert HoldsOk(s, pc);
    forall u | 0 <= u < |s.threads| && u != t && Swaps(s, pc) && pc.b == e && (pc.SetCas? || pc.RemCas?)
      ensures !s.threads[u].Holds(e)
    {
      assert HoldsOk(s, s.threads[u]);
    }
  }

  /** An entry that is BEING_SET never loses its holder. */
  lemma StaysHeld(m: Table, s: State, t: nat, call: Call, e: nat)
    requires LockInv(m, s) && t < |s.threads| && e < m.size
    requires var s' := Step(m, s, t, call);
             |s'.words| == |s.words| && (Bits(s', e) == BEING_SET || Bits(s', e) == OWNED)
    ensures var s' := Step(m, s, t, call); exists u :: 0 <= u < |s'.threads| && s'.threads[u].Holds(e)
  {
    var s' := Step(m, s, t, call);
    ShapeStep(m, s, t, call);
    EntryStep(m, s, t, call, e);
    MoverHolds(m, s, t, call, e);
    if !s'.threads[t].Holds(e) {
      var u :| 0 <= u < |s.threads| && s.threads[u].Holds(e);
      assert s'.threads[u] == s.threads[u];
    }
  }

  /** Every entry moves only 0 -> BEING_SET -> VALID -> both -> 0 or VALID. */
  lemma EntriesMoveInOrder(m: Table, s: State, t: nat, call: Call, e: nat)
    requires LockInv(m, s) && t < |s.threads| && e < m.size
    ensures |Step(m, s, t, call).words| == |s.words|
    ensures Move(Bits(s, e), Bits(Step(m, s, t, call), e))
  {
    EntryStep(m, s, t, call, e);
    assert HoldsOk(s, s.threads[t]);
  }

  // --- Contents ----------------------------------------------------------------------------

  /** Bucket e is one of the slots Set probes for the key. */
  ghost predicate InWindow(m: Table, key: int, e: nat)
    requires 0 < m.size
  {
    exists i: nat :: i < m.probes && e == m.Slot(key, i)
  }

  predicate IsValid(s: State, e: nat)
    requires e / PER_WORD < |s.words|
  {
    Bits(s, e) == VALID || Bits(s, e) == OWNED
  }

  /** How far a Set has come with its bucket. */
  ghost predicate SetOk(m: Table, s: State, pc: Pc)
    requires Shape(m, s) && (!pc.Idle? ==> pc.b < m.size)
  {
    && (pc.SetProbe? ==> pc.b == m.Slot(pc.item.key, pc.i))
    && (pc.SetCas? ==> pc.i < m.probes && pc.b == m.Slot(pc.item.key, pc.i))
    && (pc.Writing() ==> InWindow(m, pc.item.key, pc.b))
    && (pc.SetValue? ==> s.buckets[pc.b].key == pc.item.key)
    && (pc.SetCommit? || pc.SetCommitCas? ==> s.buckets[pc.b] == pc.item)
  }

  ghost predicate DataInv(m: Table, s: State) {
    && LockInv(m, s)
    && (forall t :: 0 <= t < |s.threads| ==> SetOk(m, s, s.threads[t]))
    && (forall e :: 0 <= e < m.size && IsValid(s, e) ==>
          s.buckets[e] == s.stored[e] && InWindow(m, s.stored[e].key, e))
  }

  lemma WriterBucket(m: Table, s: State, t: nat, call: Call, e: nat)
    requires Shape(m, s) && t < |s.threads| && e < m.size && InSet(s.threads[t])
    ensures var s' := Step(m, s, t, call);
            && |s'.buckets| == |s.buckets| && |s'.stored| == |s.stored|
            && (s'.buckets[e] != s.buckets[e] ==> s.threads[t].Writing() && s.threads[t].b == e)
            && s'.stored[e] == if s.threads[t].SetCommitCas? && Swaps(s, s.threads[t]) && s.threads[t].b == e
                               then s.threads[t].item else s.stored[e]
  {
  }

  lemma OtherBucket(m: Table, s: State, t: nat, call: Call)
    requires Shape(m, s) && t < |s.threads| && !InSet(s.threads[t])
    ensures Step(m, s, t, call).buckets == s.buckets && Step(m, s, t, call).stored == s.stored
  {
  }

  /** Only the writer that holds a bucket changes it. */
  lemma BucketStep(m: Table, s: State, t: nat, call: Call, e: nat)
    requires Shape(m, s) && t < |s.threads| && e < m.size
    ensures var s' := Step(m, s, t, call);
            && |s'.buckets| == |s.buckets| && |s'.stored| == |s.stored|
            && (s'.buckets[e] != s.buckets[e] ==> s.threads[t].Writing() && s.threads[t].b == e)
            && s'.stored[e] == if s.threads[t].SetCommitCas? && Swaps(s, s.threads[t]) && s.threads[t].b == e
                               then s.threads[t].item else s.stored[e]
  {
    if InSet(s.threads[t]) {
      WriterBucket(m, s, t, call, e);
    } else {
      OtherBucket(m, s, t, call);
    }
  }

  /** A bucket does not change while it is VALID. */
  lemma ValidIsImmutable(m: Table, s: State, t: nat, call: Call, e: nat)
    requires LockInv(m, s) && t < |s.threads| && e < m.size && IsValid(s, e)
    ensures |Step(m, s, t, call).buckets| == |s.buckets| && Step(m, s, t, call).buckets[e] == s.buckets[e]
  {
    BucketStep(m, s, t, call, e);
    assert HoldsOk(s, s.threads[t]);
  }

  lemma SetOkStep(m: Table, s: State, t: nat, call: Call, u: nat)
    requires DataInv(m, s) && t < |s.threads| && u < |s.threads|
    ensures var s' := Step(m, s, t, call); Shape(m, s') && SetOk(m, s', s'.threads[u])
  {
    ShapeStep(m, s, t, call);
    assert SetOk(m, s, s.threads[u]);
    if u == t {
      MoverSetOk(m, s, t, call);
    } else if s.threads[u].Writing() {
      BucketStep(m, s, t, call, s.threads[u].b);
      Alone(m, s, t, u, s.threads[u].b);
    }
  }

  lemma ProberSetOk(m: Table, s: State, t: nat, call: Call)
    requires Shape(m, s) && t < |s.threads| && (s.threads[t].SetProbe? || s.threads[t].SetCas?)
    requires SetOk(m, s, s.threads[t])
    ensures var s' := Step(m, s, t, call); Shape(m, s') && SetOk(m, s', s'.threads[t])
  {
    ShapeStep(m, s, t, call);
    var pc := s.threads[t];
    assert pc.SetProbe? ==> m.Slot(pc.item.key, pc.i + 1) == m.After(pc.b);
  }

  lemma WriterSetOk(m: Table, s: State, t: nat, call: Call)
    requires Shape(m, s) && t < |s.threads| && s.threads[t].Writing() && SetOk(m, s, s.threads[t])
    ensures var s' := Step(m, s, t, call); Shape(m, s') && SetOk(m, s', s'.threads[t])
  {
    ShapeStep(m, s, t, call);
  }

  lemma OtherSetOk(m: Table, s: State, t: nat, call: Call)
    requires Shape(m, s) && t < |s.threads| && !InSet(s.threads[t])
    ensures var s' := Step(m, s, t, call); Shape(m, s') && SetOk(m, s', s'.threads[t])
  {
    ShapeStep(m, s, t, call);
  }

  lemma MoverSetOk(m: Table, s: State, t: nat, call: Call)
    requires DataInv(m, s) && t < |s.threads|
    ensures var s' := Step(m, s, t, call); Shape(m, s') && SetOk(m, s', s'.threads[t])
  {
    var pc := s.threads[t];
    assert SetOk(m, s, pc);
    if pc.Writing() {
      WriterSetOk(m, s, t, call);
    } else if InSet(pc) {
      ProberSetOk(m, s, t, call);
    } else {
      OtherSetOk(m, s, t, call);
    }
  }

  lemma StoredStep(m: Table, s: State, t: nat, call: Call, e: nat)
    requires DataInv(m, s) && t < |s.threads| && e < m.size
    ensures var s' := Step(m, s, t, call);
            && Shape(m, s')
            && (IsValid(s', e) ==> s'.buckets[e] == s'.stored[e] && InWindow(m, s'.stored[e].key, e))
  {
    ShapeStep(m, s, t, call);
    EntryStep(m, s, t, call, e);
    BucketStep(m, s, t, call, e);
    var pc := s.threads[t];
    assert SetOk(m, s, pc) && HoldsOk(s, pc);
    if !(pc.SetCommitCas? && Swaps(s, pc) && pc.b == e) && IsValid(Step(m, s, t, call), e) {
      assert IsValid(s, e);
    }
  }

  lemma DataInvStep(m: Table, s: State, t: nat, call: Call)
    requires DataInv(m, s) && t < |s.threads|
    ensures DataInv(m, Step(m, s, t, call))
  {
    LockInvStep(m, s, t, call);
    forall u | 0 <= u < |s.threads|
      ensures var s' := Step(m, s, t, call); Shape(m, s') && u < |s'.threads| && SetOk(m, s', s'.threads[u])
    {
      SetOkStep(m, s, t, call, u);
    }
    forall e | 0 <= e < m.size
      ensures var s' := Step(m, s, t, call);
              && Shape(m, s')
              && (IsValid(s', e) ==> s'.buckets[e] == s'.stored[e] && InWindow(m, s'.stored[e].key, e))
    {
      StoredStep(m, s, t, call, e);
    }
    ShapeStep(m, s, t, call);
  }

  // --- Runs ----------------------------------------------------------------------------------

  ghost predicate Init(m: Table, s: State) {
    && Shape(m, s)
    && (forall w :: 0 <= w < |s.words| ==> s.words[w] == 0)
    && (forall t :: 0 <= t < |s.threads| ==> s.threads[t] == Idle) && s.returned == []
  }

  ghost predicate Next(m: Table, s: State, s': State) {
    Shape(m, s) && exists t: nat, call :: t < |s.threads| && s' == Step(m, s, t, call)
  }

  ghost predicate IsRun(m: Table, run: seq<State>) {
    && 0 < |run|
    && if |run| == 1 then Init(m, run[0])
       else IsRun(m, run[..|run| - 1]) && Next(m, run[|run| - 2], run[|run| - 1])
  }

  lemma DataInvInit(m: Table, s: State)
    requires Init(m, s)
    ensures DataInv(m, s)
  {
    forall e | 0 <= e < m.size ensures Bits(s, e) == 0 {
    }
  }

  lemma DataInvNext(m: Table, s: State, s': State)
    requires DataInv(m, s) && Next(m, s, s')
    ensures DataInv(m, s')
  {
    var t: nat, call :| t < |s.threads| && s' == Step(m, s, t, call);
    DataInvStep(m, s, t, call);
  }

  /** Every state of a run but the first is a step from the one before. */
  lemma {:induction false} RunSteps(m: Table, run: seq<State>)
    requires IsRun(m, run)
    ensures Init(m, run[0]) && forall k: nat :: k + 1 < |run| ==> Next(m, run[k], run[k + 1])
    decreases |run|
  {
    var n := |run| - 1;
    if n > 0 {
      RunSteps(m, run[..n]);
      StepsGrow(run, run[..n], (s, s') => Next(m, s, s'));
    }
  }

  lemma StepsGrow(run: seq<State>, init: seq<State>, N: (State, State) -> bool)
    requires 1 < |run| && init == run[..|run| - 1] && N(run[|run| - 2], run[|run| - 1])
    requires forall k: nat :: k + 1 < |init| ==> N(init[k], init[k + 1])
    ensures forall k: nat :: k + 1 < |run| ==> N(run[k], run[k + 1])
  {
    forall k: nat | k + 1 < |run| ensures N(run[k], run[k + 1]) {
      if k + 1 < |init| {
        assert init[k] == run[k] && init[k + 1] == run[k + 1];
      }
    }
  }

  /** What holds at first and is kept by steps holds throughout. */
  lemma {:induction false} Kept(run: seq<State>, N: (State, State) -> bool, P: State -> bool, n: nat)
    requires n < |run| && P(run[0]) && forall k: nat :: k + 1 < |run| ==> N(run[k], run[k + 1])
    requires forall s, s' :: P(s) && N(s, s') ==> P(s')
    ensures P(run[n])
  {
    if n > 0 {
      Kept(run, N, P, n - 1);
      assert N(run[n - 1], run[n - 1 + 1]);
    }
  }

  lemma InvAt(m: Table, run: seq<State>, n: nat)
    requires IsRun(m, run) && n < |run|
    ensures DataInv(m, run[n])
  {
    RunSteps(m, run);
    DataInvInit(m, run[0]);
    InvNext(m);
    Kept(run, (s, s') => Next(m, s, s'), s => DataInv(m, s), n);
  }

  lemma InvNext(m: Table)
    ensures forall s, s' :: DataInv(m, s) && Next(m, s, s') ==> DataInv(m, s')
  {
    forall s, s' | DataInv(m, s) && Next(m, s, s') ensures DataInv(m, s') {
      DataInvNext(m, s, s');
    }
  }

  lemma InvHolds(m: Table, run: seq<State>)
    requires IsRun(m, run)
    ensures DataInv(m, run[|run| - 1])
  {
    InvAt(m, run, |run| - 1);
  }

  /**
   Under every interleaving: at most one thread is between Begin and Commit on an entry, an
   entry is BEING_SET only while some thread is, and a bucket whose VALID bit is set holds, in
   full, the item of one completed Set and lies in the window its key is probed in.
   */
  lemma SafeUnderInterleaving(m: Table, run: seq<State>, s: State)
    requires IsRun(m, run) && s == run[|run| - 1]
    ensures Shape(m, s)
    ensures forall t, u, e :: 0 <= t < u < |s.threads| && 0 <= e < m.size ==>
              !(s.threads[t].Holds(e) && s.threads[u].Holds(e))
    ensures forall e :: 0 <= e < m.size ==>
              ((exists t :: 0 <= t < |s.threads| && s.threads[t].Holds(e))
               <==> Bits(s, e) == BEING_SET || Bits(s, e) == OWNED)
    ensures forall e :: 0 <= e < m.size && IsValid(s, e) ==>
              s.buckets[e] == s.stored[e] && InWindow(m, s.buckets[e].key, e)
  {
    InvHolds(m, run);
    forall t, e | 0 <= t < |s.threads| && 0 <= e < m.size && s.threads[t].Holds(e)
      ensures Bits(s, e) == BEING_SET || Bits(s, e) == OWNED
    {
      assert HoldsOk(s, s.threads[t]);
    }
  }
}
