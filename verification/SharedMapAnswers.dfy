/**
 What the calls of the shared hash map answer, under every interleaving.

 The calls that have returned account for the VALID buckets of every key, and each answer was
 true, slot by slot, at some moment of its call.
 */
module SharedMapAnswers {
  import opened Bit2Map
  import opened SharedMap

  // --- The calls that are under way --------------------------------------------------------------

  /** A thread works at the call that it began. */
  predicate Follows(pc: Pc, call: Call) {
    && (InSet(pc) ==> call == Call.Set(pc.item))
    && (InFind(pc) ==> call == Call.Find(pc.key))
    && (InRemove(pc) ==> call == Call.Remove(pc.key))
  }

  /** A Find looks where a Set of its key would store, and a Remove clears only its own key. */
  ghost predicate Aims(m: Table, s: State, pc: Pc)
    requires Shape(m, s) && (!pc.Idle? ==> pc.b < m.size)
  {
    && (pc.FindProbe? ==> pc.b == m.Slot(pc.key, pc.i))
    && (pc.FindKey? ==> pc.i < m.probes && pc.b == m.Slot(pc.key, pc.i))
    && (pc.FindValue? ==> InWindow(m, pc.key, pc.b))
    && (pc.RemClear? ==> s.buckets[pc.b].key == pc.key)
    && (pc.RemIgnore? || pc.RemIgnoreCas? ==> s.buckets[pc.b].key != pc.key)
  }

  ghost predicate CallInv(m: Table, s: State) {
    DataInv(m, s) && forall t: nat :: t < |s.threads| ==> Follows(s.threads[t], s.called[t]) && Aims(m, s, s.threads[t])
  }

  lemma SetterAims(m: Table, s: State, t: nat, call: Call)
    requires Shape(m, s) && t < |s.threads| && InSet(s.threads[t]) && Follows(s.threads[t], s.called[t])
    ensures var s' := Step(m, s, t, call);
            Shape(m, s') && s'.called == s.called && Follows(s'.threads[t], s'.called[t]) && Aims(m, s', s'.threads[t])
  {
    ShapeStep(m, s, t, call);
  }

  lemma FinderAims(m: Table, s: State, t: nat, call: Call)
    requires Shape(m, s) && t < |s.threads| && InFind(s.threads[t])
    requires Follows(s.threads[t], s.called[t]) && Aims(m, s, s.threads[t])
    ensures var s' := Step(m, s, t, call);
            Shape(m, s') && s'.called == s.called && Follows(s'.threads[t], s'.called[t]) && Aims(m, s', s'.threads[t])
  {
    ShapeStep(m, s, t, call);
    var pc := s.threads[t];
    assert pc.FindProbe? || pc.FindKey? ==> m.Slot(pc.key, pc.i + 1) == m.After(pc.b);
  }

  lemma RemoverAims(m: Table, s: State, t: nat, call: Call)
    requires Shape(m, s) && t < |s.threads| && InRemove(s.threads[t]) && Follows(s.threads[t], s.called[t]) && Aims(m, s, s.threads[t])
    ensures var s' := Step(m, s, t, call);
            Shape(m, s') && s'.called == s.called && Follows(s'.threads[t], s'.called[t]) && Aims(m, s', s'.threads[t])
  {
    ShapeStep(m, s, t, call);
  }

  lemma StarterAims(m: Table, s: State, t: nat, call: Call)
    requires Shape(m, s) && t < |s.threads| && s.threads[t].Idle?
    ensures var s' := Step(m, s, t, call);
            && Shape(m, s') && s'.called == s.called[t := call]
            && Follows(s'.threads[t], s'.called[t]) && Aims(m, s', s'.threads[t])
  {
    ShapeStep(m, s, t, call);
  }

  lemma MoverAims(m: Table, s: State, t: nat, call: Call)
    requires CallInv(m, s) && t < |s.threads|
    ensures var s' := Step(m, s, t, call);
            && Shape(m, s') && Follows(s'.threads[t], s'.called[t]) && Aims(m, s', s'.threads[t])
            && forall u :: 0 <= u < |s.called| && u != t ==> s'.called[u] == s.called[u]
  {
    assert Follows(s.threads[t], s.called[t]) && Aims(m, s, s.threads[t]);
    if InSet(s.threads[t]) {
      SetterAims(m, s, t, call);
    } else if InFind(s.threads[t]) {
      FinderAims(m, s, t, call);
    } else if InRemove(s.threads[t]) {
      RemoverAims(m, s, t, call);
    } else {
      StarterAims(m, s, t, call);
    }
  }

  lemma OthersAim(m: Table, s: State, t: nat, call: Call, u: nat)
    requires CallInv(m, s) && t < |s.threads| && u < |s.threads| && u != t
    ensures var s' := Step(m, s, t, call); Shape(m, s') && Aims(m, s', s'.threads[u])
  {
    ShapeStep(m, s, t, call);
    var pc := s.threads[u];
    assert Aims(m, s, pc) && HoldsOk(s, pc);
    if pc.Removing() {
      ValidIsImmutable(m, s, t, call, pc.b);
    }
  }

  lemma CallInvStep(m: Table, s: State, t: nat, call: Call)
    requires CallInv(m, s) && t < |s.threads|
    ensures CallInv(m, Step(m, s, t, call))
  {
    var s' := Step(m, s, t, call);
    DataInvStep(m, s, t, call);
    ShapeStep(m, s, t, call);
    MoverAims(m, s, t, call);
    forall u: nat | u < |s'.threads| ensures Follows(s'.threads[u], s'.called[u]) && Aims(m, s', s'.threads[u]) {
      if u != t {
        assert Follows(s.threads[u], s.called[u]);
        OthersAim(m, s, t, call, u);
      }
    }
  }

  // --- The VALID buckets and the answers ------------------------------------------------------------

  predicate HoldsKey(s: State, e: nat, key: int)
    requires e < |s.buckets| && e / PER_WORD < |s.words|
  {
    IsValid(s, e) && s.buckets[e].key == key
  }

  /** How many of the first n buckets are VALID and hold the key. */
  ghost function HeldUpTo(m: Table, s: State, key: int, n: nat): (c: nat)
    requires Shape(m, s) && n <= m.size
  {
    if n == 0 then 0 else HeldUpTo(m, s, key, n - 1) + if HoldsKey(s, n - 1, key) then 1 else 0
  }

  ghost function Held(m: Table, s: State, key: int): (c: nat)
    requires Shape(m, s)
  {
    HeldUpTo(m, s, key, m.size)
  }

  function Change(r: Return, key: int): (d: int) {
    if r.answer != Done(true) then 0
    else match r.call
      case Set(item) => if item.key == key then 1 else 0
      case Remove(k) => if k == key then -1 else 0
      case Find(_) => 0
  }

  /** Set calls that stored the key less Remove calls that removed it, by their answers. */
  function Balance(log: seq<Return>, key: int): (d: int) {
    if log == [] then 0 else Balance(log[..|log| - 1], key) + Change(log[|log| - 1], key)
  }

  lemma BalanceGrows(log: seq<Return>, r: Return, key: int)
    ensures Balance(log + [r], key) == Balance(log, key) + Change(r, key)
  {
    assert (log + [r])[..|log|] == log;
  }

  /** This step commits a Set, or clears for a Remove. */
  predicate Commits(s: State, pc: Pc)
    requires !pc.Idle? ==> pc.b / PER_WORD < |s.words|
  {
    pc.SetCommitCas? && Swaps(s, pc)
  }

  /** Which VALID bucket a step makes or unmakes. */
  lemma ValidStep(m: Table, s: State, t: nat, call: Call, e: nat)
    requires DataInv(m, s) && t < |s.threads| && e < m.size
    ensures var s', pc := Step(m, s, t, call), s.threads[t];
            && Shape(m, s')
            && (Commits(s, pc) && pc.b == e ==> !IsValid(s, e) && IsValid(s', e) && s'.buckets[e] == pc.item)
            && (pc.RemClear? && pc.b == e ==> IsValid(s, e) && !IsValid(s', e))
            && (!((Commits(s, pc) || pc.RemClear?) && pc.b == e) ==> IsValid(s', e) == IsValid(s, e))
            && (IsValid(s, e) ==> s'.buckets[e] == s.buckets[e])
  {
    var pc := s.threads[t];
    ShapeStep(m, s, t, call);
    EntryStep(m, s, t, call, e);
    assert HoldsOk(s, pc) && SetOk(m, s, pc);
    if IsValid(s, e) {
      ValidIsImmutable(m, s, t, call, e);
    }
    if Commits(s, pc) {
      CommitKeeps(m, s, t, call);
    }
  }

  lemma CommitKeeps(m: Table, s: State, t: nat, call: Call)
    requires Shape(m, s) && t < |s.threads| && s.threads[t].SetCommitCas?
    ensures Step(m, s, t, call).buckets == s.buckets
  {
  }

  function Num(s: State, e: nat, key: int): (n: nat)
    requires e < |s.buckets| && e / PER_WORD < |s.words|
  {
    if HoldsKey(s, e, key) then 1 else 0
  }

  /** By how much a step changes the number of buckets that hold the key. */
  function Delta(s: State, pc: Pc, key: int): (d: int)
    requires !pc.Idle? ==> pc.b / PER_WORD < |s.words|
  {
    if Commits(s, pc) && pc.item.key == key then 1 else if pc.RemClear? && pc.key == key then -1 else 0
  }

  lemma NumStep(m: Table, s: State, t: nat, call: Call, key: int, e: nat)
    requires CallInv(m, s) && t < |s.threads| && e < m.size
    ensures var s', pc := Step(m, s, t, call), s.threads[t];
            && Shape(m, s')
            && Num(s', e, key) == Num(s, e, key) + if !pc.Idle? && pc.b == e then Delta(s, pc, key) else 0
  {
    ValidStep(m, s, t, call, e);
    assert Aims(m, s, s.threads[t]);
  }

  lemma {:induction false} HeldChanges(m: Table, s: State, s': State, key: int, b: nat, d: int, n: nat)
    requires Shape(m, s) && Shape(m, s') && n <= m.size
    requires forall e: nat :: e < m.size ==> Num(s', e, key) == Num(s, e, key) + if e == b then d else 0
    ensures HeldUpTo(m, s', key, n) == HeldUpTo(m, s, key, n) + if b < n then d else 0
    decreases n
  {
    if n > 0 {
      HeldChanges(m, s, s', key, b, d, n - 1);
      assert Num(s', n - 1, key) == Num(s, n - 1, key) + if n - 1 == b then d else 0;
    }
  }

  lemma HeldStep(m: Table, s: State, t: nat, call: Call, key: int)
    requires CallInv(m, s) && t < |s.threads|
    ensures var s' := Step(m, s, t, call); Shape(m, s') && Held(m, s', key) == Held(m, s, key) + Delta(s, s.threads[t], key)
  {
    var s', pc := Step(m, s, t, call), s.threads[t];
    ShapeStep(m, s, t, call);
    var b, d := if pc.Idle? then 0 else pc.b, Delta(s, pc, key);
    forall e: nat | e < m.size ensures Num(s', e, key) == Num(s, e, key) + if e == b then d else 0 {
      NumStep(m, s, t, call, key, e);
    }
    HeldChanges(m, s, s', key, b, d, m.size);
  }

  /** What a step adds to the record of returned calls. */
  function Answers(m: Table, s: State, pc: Pc): (a: seq<Answer>)
    requires Shape(m, s) && (!pc.Idle? ==> pc.b < m.size)
  {
    if Commits(s, pc) || pc.RemClear? then [Done(true)]
    else if (pc.SetProbe? || pc.FindProbe?) && pc.i >= m.probes then [Done(false)]
    else if pc.FindValue? then [Found(s.buckets[pc.b].value)]
    else if pc.RemIgnoreCas? && Swaps(s, pc) && pc.failed + 1 == m.probes then [Done(false)]
    else []
  }

  predicate Logged(s: State, s': State, t: nat, a: seq<Answer>)
    requires t < |s.called|
  {
    |a| <= 1 && s'.returned == s.returned + if a == [] then [] else [Return(t, s.called[t], a[0])]
  }

  lemma SetterLogs(m: Table, s: State, t: nat, call: Call)
    requires Shape(m, s) && t < |s.threads| && InSet(s.threads[t])
    ensures Logged(s, Step(m, s, t, call), t, Answers(m, s, s.threads[t]))
  {
  }

  lemma RemoverLogs(m: Table, s: State, t: nat, call: Call)
    requires Shape(m, s) && t < |s.threads| && InRemove(s.threads[t])
    ensures Logged(s, Step(m, s, t, call), t, Answers(m, s, s.threads[t]))
  {
  }

  lemma FinderLogs(m: Table, s: State, t: nat, call: Call)
    requires Shape(m, s) && t < |s.threads| && (InFind(s.threads[t]) || s.threads[t].Idle?)
    ensures Logged(s, Step(m, s, t, call), t, Answers(m, s, s.threads[t]))
  {
  }

  lemma LogStep(m: Table, s: State, t: nat, call: Call)
    requires Shape(m, s) && t < |s.threads|
    ensures Logged(s, Step(m, s, t, call), t, Answers(m, s, s.threads[t]))
  {
    if InSet(s.threads[t]) {
      SetterLogs(m, s, t, call);
    } else if InRemove(s.threads[t]) {
      RemoverLogs(m, s, t, call);
    } else {
      FinderLogs(m, s, t, call);
    }
  }

  ghost predicate Balanced(m: Table, s: State) {
    CallInv(m, s) && forall key :: Held(m, s, key) == Balance(s.returned, key)
  }

  lemma BalancedStep(m: Table, s: State, t: nat, call: Call)
    requires Balanced(m, s) && t < |s.threads|
    ensures Balanced(m, Step(m, s, t, call))
  {
    var s', pc := Step(m, s, t, call), s.threads[t];
    CallInvStep(m, s, t, call);
    LogStep(m, s, t, call);
    assert Follows(pc, s.called[t]);
    forall key ensures Held(m, s', key) == Balance(s'.returned, key) {
      HeldStep(m, s, t, call, key);
      assert Held(m, s, key) == Balance(s.returned, key);
      var a := Answers(m, s, pc);
      if a == [] {
        assert s'.returned == s.returned;
      } else {
        BalanceGrows(s.returned, Return(t, s.called[t], a[0]), key);
      }
    }
  }

  lemma {:induction false} NoneHeld(m: Table, s: State, key: int, n: nat)
    requires Init(m, s) && n <= m.size
    ensures HeldUpTo(m, s, key, n) == 0
    decreases n
  {
    if n > 0 {
      NoneHeld(m, s, key, n - 1);
      assert Bits(s, n - 1) == 0;
    }
  }

  lemma BalancedAt(m: Table, run: seq<State>, n: nat)
    requires IsRun(m, run) && n < |run|
    ensures Balanced(m, run[n])
  {
    RunSteps(m, run);
    BalancedInit(m, run[0]);
    BalancedNext(m);
    Kept(run, (s, s') => Next(m, s, s'), s => Balanced(m, s), n);
  }

  lemma BalancedInit(m: Table, s: State)
    requires Init(m, s)
    ensures Balanced(m, s)
  {
    DataInvInit(m, s);
    forall key ensures Held(m, s, key) == Balance(s.returned, key) {
      NoneHeld(m, s, key, m.size);
    }
  }

  lemma BalancedNext(m: Table)
    ensures forall s, s' :: Balanced(m, s) && Next(m, s, s') ==> Balanced(m, s')
  {
    forall s, s' | Balanced(m, s) && Next(m, s, s') ensures Balanced(m, s') {
      var t: nat, call :| t < |s.threads| && s' == Step(m, s, t, call);
      BalancedStep(m, s, t, call);
    }
  }

  /**
   In every run the number of VALID buckets that hold a key is the number of Sets of that key that
   returned true less the number of Removes of that key that did.
   */
  lemma AnswersAccountForBuckets(m: Table, run: seq<State>, key: int)
    requires IsRun(m, run)
    ensures Shape(m, run[|run| - 1]) && Held(m, run[|run| - 1], key) == Balance(run[|run| - 1].returned, key)
  {
    BalancedAt(m, run, |run| - 1);
  }

  // --- What a call saw --------------------------------------------------------------------------------

  /** What one look at the shared memory tells. */
  datatype Fact = Taken(e: nat) | Lacks(e: nat, key: int) | Valid(e: nat) | HasKey(e: nat, key: int) | NotReady(e: nat)

  predicate True(s: State, f: Fact) {
    && f.e < |s.buckets| && f.e / PER_WORD < |s.words|
    && match f
       case Taken(e) => Bits(s, e) != 0
       case Lacks(e, key) => !HoldsKey(s, e, key)
       case Valid(e) => IsValid(s, e)
       case HasKey(e, key) => s.buckets[e].key == key
       case NotReady(e) => Bits(s, e) != VALID
  }

  /** Thread t was inside one and the same call from state k to state n. */
  ghost predicate InCall(run: seq<State>, t: nat, k: nat, n: nat) {
    k <= n < |run| && forall x :: k <= x <= n ==> t < |run[x].threads| && !run[x].threads[t].Idle?
  }

  /** The fact was true at some moment of the call that thread t is in. */
  ghost predicate Saw(run: seq<State>, t: nat, n: nat, f: Fact) {
    exists k: nat :: InCall(run, t, k, n) && True(run[k], f)
  }

  /** The j-th slot comes before the one that a Set has reached or taken. */
  ghost predicate Passed(m: Table, pc: Pc, j: nat)
    requires 0 < m.size && InSet(pc)
  {
    if pc.Writing() then Before(m, pc.item.key, j, pc.b) else j < pc.i
  }

  /** Going round from the hash slot of the key, the j-th slot comes before bucket e. */
  ghost predicate Before(m: Table, key: int, j: nat, e: nat)
    requires 0 < m.size
  {
    forall l: nat :: l <= j ==> m.Slot(key, l) != e
  }

  /** What a thread at this point relies on having seen. */
  ghost predicate Claims(m: Table, pc: Pc, f: Fact)
    requires 0 < m.size
  {
    match f
    case Taken(e) => InSet(pc) && exists j: nat :: e == m.Slot(pc.item.key, j) && Passed(m, pc, j)
    case Lacks(e, key) => (pc.FindProbe? || pc.FindKey?) && key == pc.key && exists j: nat :: j < pc.i && e == m.Slot(key, j)
    case Valid(e) => (pc.FindKey? || pc.FindValue?) && e == pc.b
    case HasKey(e, key) => pc.FindValue? && e == pc.b && key == pc.key
    case NotReady(e) => InRemove(pc) && exists j: nat :: e == m.Slot(pc.key, j) && Before(m, pc.key, j, pc.b)
  }

  lemma SetterClaims(m: Table, s: State, t: nat, call: Call, f: Fact)
    requires DataInv(m, s) && t < |s.threads| && InSet(s.threads[t])
    requires t < |Step(m, s, t, call).threads| && Claims(m, Step(m, s, t, call).threads[t], f)
    ensures Claims(m, s.threads[t], f) || True(s, f)
  {
    var pc, pc' := s.threads[t], Step(m, s, t, call).threads[t];
    assert SetOk(m, s, pc);
    TestEmptyReadsLane(s.Word(pc.b), Shift(pc.b));
    SetterGoesOn(m, s, t, call);
    var j: nat :| f.e == m.Slot(pc'.item.key, j) && Passed(m, pc', j);
    if !Passed(m, pc, j) {
      assert pc.SetProbe? && j == pc.i;
    }
  }

  /** The points that a Set goes through. */
  lemma SetterGoesOn(m: Table, s: State, t: nat, call: Call)
    requires Shape(m, s) && t < |s.threads| && InSet(s.threads[t])
    ensures var pc, s' := s.threads[t], Step(m, s, t, call);
            && t < |s'.threads|
            && var pc' := s'.threads[t];
            && (InFind(pc') ==> false)
            && (InSet(pc') ==> pc'.item == pc.item)
            && (InSet(pc') && pc.Writing() ==> pc'.Writing() && pc'.b == pc.b)
            && (pc.SetProbe? && InSet(pc') ==>
                  if TestEmpty(s.Word(pc.b), Shift(pc.b)) then pc'.SetCas? && pc'.i == pc.i
                  else pc'.SetProbe? && pc'.i == pc.i + 1)
            && (pc.SetCas? ==> (pc'.SetKey? && pc'.b == pc.b) || (pc'.SetProbe? && pc'.i == pc.i))
  {
  }

  lemma FinderClaims(m: Table, s: State, t: nat, call: Call, f: Fact)
    requires CallInv(m, s) && t < |s.threads| && InFind(s.threads[t])
    requires t < |Step(m, s, t, call).threads| && Claims(m, Step(m, s, t, call).threads[t], f)
    ensures Claims(m, s.threads[t], f) || True(s, f)
  {
    var pc := s.threads[t];
    assert Aims(m, s, pc);
    TestValidReadsLane(s.Word(pc.b), Shift(pc.b));
    FinderGoesOn(m, s, t, call);
  }

  /** The points that a Find goes through. */
  lemma FinderGoesOn(m: Table, s: State, t: nat, call: Call)
    requires Shape(m, s) && t < |s.threads| && InFind(s.threads[t])
    ensures var pc, s' := s.threads[t], Step(m, s, t, call);
            && t < |s'.threads|
            && var pc' := s'.threads[t];
            && (InFind(pc') || pc'.Idle?)
            && (InFind(pc') ==> pc'.key == pc.key)
            && (pc'.FindProbe? ==>
                  && !pc.FindValue? && pc'.i == pc.i + 1 && pc'.b == m.After(pc.b)
                  && if pc.FindProbe? then !TestValid(s.Word(pc.b), Shift(pc.b)) else s.buckets[pc.b].key != pc.key)
            && (pc'.FindKey? ==> pc.FindProbe? && pc'.i == pc.i && pc'.b == pc.b && TestValid(s.Word(pc.b), Shift(pc.b)))
            && (pc'.FindValue? ==> pc.FindKey? && pc'.b == pc.b && s.buckets[pc.b].key == pc.key)
  {
  }

  lemma RemoverGoesOn(m: Table, s: State, t: nat, call: Call)
    requires Shape(m, s) && t < |s.threads| && InRemove(s.threads[t])
    ensures var pc, s' := s.threads[t], Step(m, s, t, call);
            && t < |s'.threads|
            && var pc' := s'.threads[t];
            && (InRemove(pc') || pc'.Idle?)
            && (InRemove(pc') ==> pc'.key == pc.key)
            && (InRemove(pc') ==> pc'.b == pc.b || (pc'.b == m.After(pc.b) && pc.RemProbe? && !TestRemovable(s.Word(pc.b), Shift(pc.b))))
  {
  }

  lemma RemoverClaims(m: Table, s: State, t: nat, call: Call, f: Fact)
    requires Shape(m, s) && t < |s.threads| && InRemove(s.threads[t])
    requires t < |Step(m, s, t, call).threads| && Claims(m, Step(m, s, t, call).threads[t], f)
    ensures Claims(m, s.threads[t], f) || True(s, f)
  {
    var pc, pc' := s.threads[t], Step(m, s, t, call).threads[t];
    RemoverGoesOn(m, s, t, call);
    TestRemovableReadsLane(s.Word(pc.b), Shift(pc.b));
    var j: nat :| f.e == m.Slot(pc.key, j) && Before(m, pc.key, j, pc'.b);
    if pc'.b != pc.b {
      BeforeNext(m, pc.key, j, pc.b);
    }
  }

  lemma BeforeNext(m: Table, key: int, j: nat, b: nat)
    requires 0 < m.size && b < m.size && Before(m, key, j, m.After(b))
    ensures Before(m, key, j, b) || m.Slot(key, j) == b
  {
    if !Before(m, key, j, b) {
      var l: nat :| l <= j && m.Slot(key, l) == b;
      assert m.Slot(key, l + 1) == m.After(b);
    }
  }

  lemma StarterClaims(m: Table, s: State, t: nat, call: Call, f: Fact)
    requires Shape(m, s) && t < |s.threads| && s.threads[t].Idle?
    ensures t < |Step(m, s, t, call).threads| && !Claims(m, Step(m, s, t, call).threads[t], f)
  {
  }

  /** What a step newly relies on is true when the step is made. */
  lemma ClaimsStep(m: Table, s: State, t: nat, call: Call, f: Fact)
    requires CallInv(m, s) && t < |s.threads|
    requires t < |Step(m, s, t, call).threads| && Claims(m, Step(m, s, t, call).threads[t], f)
    ensures !s.threads[t].Idle? && (Claims(m, s.threads[t], f) || True(s, f))
  {
    if InSet(s.threads[t]) {
      SetterClaims(m, s, t, call, f);
    } else if InFind(s.threads[t]) {
      FinderClaims(m, s, t, call, f);
    } else if InRemove(s.threads[t]) {
      RemoverClaims(m, s, t, call, f);
    } else {
      StarterClaims(m, s, t, call, f);
    }
  }

  lemma SawLater(run: seq<State>, t: nat, n: nat, f: Fact)
    requires Saw(run, t, n, f) && n + 1 < |run| && t < |run[n + 1].threads| && !run[n + 1].threads[t].Idle?
    ensures Saw(run, t, n + 1, f)
  {
    var k: nat :| InCall(run, t, k, n) && True(run[k], f);
    assert InCall(run, t, k, n + 1);
  }

  lemma ClaimsNeedACall(m: Table, pc: Pc, f: Fact)
    requires 0 < m.size && Claims(m, pc, f)
    ensures !pc.Idle?
  {
  }

  lemma {:induction false} ClaimsAreTrue(m: Table, run: seq<State>, t: nat, n: nat, f: Fact)
    requires IsRun(m, run) && n < |run| && t < |run[n].threads| && 0 < m.size && Claims(m, run[n].threads[t], f)
    ensures Saw(run, t, n, f)
    decreases n
  {
    RunSteps(m, run);
    ClaimsNeedACall(m, run[n].threads[t], f);
    if n > 0 {
      var s := run[n - 1];
      BalancedAt(m, run, n - 1);
      assert Next(m, run[n - 1], run[n - 1 + 1]);
      var u: nat, call :| u < |s.threads| && run[n] == Step(m, s, u, call);
      ShapeStep(m, s, u, call);
      if u == t {
        ClaimsStep(m, s, t, call, f);
      }
      ClaimsGoBack(m, run, t, n, f);
    }
  }

  lemma ClaimsGoBack(m: Table, run: seq<State>, t: nat, n: nat, f: Fact)
    requires IsRun(m, run) && 0 < n < |run| && t < |run[n].threads| && !run[n].threads[t].Idle?
    requires t < |run[n - 1].threads| && 0 < m.size && !run[n - 1].threads[t].Idle?
    requires Claims(m, run[n - 1].threads[t], f) || True(run[n - 1], f)
    ensures Saw(run, t, n, f)
    decreases n, 0
  {
    if Claims(m, run[n - 1].threads[t], f) {
      ClaimsAreTrue(m, run, t, n - 1, f);
    } else {
      assert InCall(run, t, n - 1, n - 1);
    }
    SawLater(run, t, n - 1, f);
  }

  // --- How often a Remove met another key -----------------------------------------------------------------

  /** Between states n and n + 1, thread t turned away from a VALID bucket that holds another key than its call's. */
  ghost predicate TurnsAway(run: seq<State>, t: nat, n: nat)
    requires n + 1 < |run|
  {
    && t < |run[n].threads| == |run[n].called| && t < |run[n + 1].threads|
    && run[n].threads[t].RemCompare? && run[n + 1].threads[t].RemIgnore? && run[n].called[t].Remove?
    && True(run[n], Valid(run[n].threads[t].b)) && run[n].buckets[run[n].threads[t].b].key != run[n].called[t].key
  }

  /** How many times it did so in the call that it is in at state n. */
  ghost function TimesAway(run: seq<State>, t: nat, n: nat): (c: nat)
    requires n < |run|
  {
    if n == 0 || t >= |run[n].threads| || run[n].threads[t].Idle? then 0
    else TimesAway(run, t, n - 1) + if TurnsAway(run, t, n - 1) then 1 else 0
  }

  /** What the count of failures in a Remove stands for. */
  predicate Failures(pc: Pc, c: nat) {
    && (pc.RemProbe? || pc.RemCas? || pc.RemCompare? ==> pc.failed == c)
    && (pc.RemIgnore? || pc.RemIgnoreCas? ==> pc.failed + 1 == c)
  }

  lemma FailuresStep(m: Table, s: State, t: nat, call: Call, c: nat)
    requires CallInv(m, s) && t < |s.threads| && (if s.threads[t].Idle? then c == 0 else Failures(s.threads[t], c))
    ensures var s', pc := Step(m, s, t, call), s.threads[t];
            && t < |s'.threads|
            && if pc.RemCompare? && s'.threads[t].RemIgnore? then
                 Failures(s'.threads[t], c + 1) && IsValid(s, pc.b) && s.called[t] == Call.Remove(pc.key) && s.buckets[pc.b].key != pc.key
               else Failures(s'.threads[t], c)
  {
    var pc := s.threads[t];
    assert Follows(pc, s.called[t]) && HoldsOk(s, pc);
    if InRemove(pc) {
      RemoverFails(m, s, t, call, c);
    } else {
      OthersDoNotFail(m, s, t, call);
    }
  }

  lemma RemoverFails(m: Table, s: State, t: nat, call: Call, c: nat)
    requires Shape(m, s) && t < |s.threads| && InRemove(s.threads[t]) && Failures(s.threads[t], c)
    ensures var s', pc := Step(m, s, t, call), s.threads[t];
            && t < |s'.threads|
            && if pc.RemCompare? && s'.threads[t].RemIgnore? then Failures(s'.threads[t], c + 1) && s.buckets[pc.b].key != pc.key
               else Failures(s'.threads[t], c)
  {
  }

  lemma OthersDoNotFail(m: Table, s: State, t: nat, call: Call)
    requires Shape(m, s) && t < |s.threads| && !InRemove(s.threads[t])
    ensures var s' := Step(m, s, t, call);
            t < |s'.threads| && Failures(s'.threads[t], 0) && (InRemove(s'.threads[t]) ==> s.threads[t].Idle?)
  {
  }

  lemma {:induction false} FailuresAreReal(m: Table, run: seq<State>, t: nat, n: nat)
    requires IsRun(m, run) && n < |run| && t < |run[n].threads|
    ensures Failures(run[n].threads[t], TimesAway(run, t, n))
    decreases n
  {
    RunSteps(m, run);
    if n > 0 {
      var s := run[n - 1];
      BalancedAt(m, run, n - 1);
      assert Next(m, run[n - 1], run[n - 1 + 1]);
      var u: nat, call :| u < |s.threads| && run[n] == Step(m, s, u, call);
      ShapeStep(m, s, u, call);
      FailuresAreReal(m, run, t, n - 1);
      if u == t {
        FailuresStep(m, s, t, call, TimesAway(run, t, n - 1));
      }
    }
  }

  // --- What it means ----------------------------------------------------------------------------------------

  /**
   An answer given between states n and n + 1.

   Set, true: a bucket of the key's window becomes VALID with the item, and each slot before it was
   seen taken. Set, false: each slot of the window was seen taken. Find with a value: it is the
   value of a bucket of the window that was seen VALID and seen to hold the key. Find, false: each
   slot of the window was seen without the key. Remove, true: a VALID bucket that holds the key is
   cleared. Remove, false: it turned away, as often as there are probes, from a VALID bucket of
   another key, the last of which it holds. Either way each bucket before that one, going round
   from the hash slot, was seen not VALID or being removed. All that was seen was true at some
   moment of the call.
   */
  ghost predicate Right(m: Table, run: seq<State>, n: nat, r: Return)
    requires 0 < m.size && n + 1 < |run| && Shape(m, run[n]) && Shape(m, run[n + 1])
  {
    match r.call
    case Set(item) =>
      && r.answer.Done?
      && if r.answer.ok then exists e: nat :: Stores(m, run, n, r.thread, item, e)
         else forall j: nat :: j < m.probes ==> Saw(run, r.thread, n, Taken(m.Slot(item.key, j)))
    case Find(key) =>
      if r.answer.Found? then exists e: nat :: Finds(m, run, n, r.thread, key, e, r.answer.value)
      else !r.answer.ok && forall j: nat :: j < m.probes ==> Saw(run, r.thread, n, Lacks(m.Slot(key, j), key))
    case Remove(key) =>
      && r.answer.Done?
      && if r.answer.ok then exists e: nat :: Clears(m, run, n, key, e) && Passes(m, run, n, r.thread, key, e)
         else TimesAway(run, r.thread, n) == m.probes && exists e: nat :: Leaves(m, run, n, key, e) && Passes(m, run, n, r.thread, key, e)
  }

  ghost predicate Stores(m: Table, run: seq<State>, n: nat, t: nat, item: Bucket, e: nat)
    requires 0 < m.size && n + 1 < |run| && Shape(m, run[n]) && Shape(m, run[n + 1])
  {
    && e < m.size && InWindow(m, item.key, e) && !IsValid(run[n], e) && IsValid(run[n + 1], e) && run[n + 1].buckets[e] == item
    && forall j: nat :: Before(m, item.key, j, e) ==> Saw(run, t, n, Taken(m.Slot(item.key, j)))
  }

  ghost predicate Finds(m: Table, run: seq<State>, n: nat, t: nat, key: int, e: nat, value: int)
    requires 0 < m.size && n + 1 < |run| && Shape(m, run[n])
  {
    && e < m.size && InWindow(m, key, e) && run[n].buckets[e].value == value
    && Saw(run, t, n, Valid(e)) && Saw(run, t, n, HasKey(e, key))
  }

  ghost predicate Clears(m: Table, run: seq<State>, n: nat, key: int, e: nat)
    requires n + 1 < |run| && Shape(m, run[n]) && Shape(m, run[n + 1])
  {
    e < m.size && IsValid(run[n], e) && !IsValid(run[n + 1], e) && run[n].buckets[e].key == key
  }

  ghost predicate Leaves(m: Table, run: seq<State>, n: nat, key: int, e: nat)
    requires n + 1 < |run| && Shape(m, run[n]) && Shape(m, run[n + 1])
  {
    e < m.size && Bits(run[n], e) == OWNED && Bits(run[n + 1], e) == VALID && run[n].buckets[e].key != key
  }

  ghost predicate Passes(m: Table, run: seq<State>, n: nat, t: nat, key: int, e: nat)
    requires 0 < m.size
  {
    forall j: nat :: Before(m, key, j, e) ==> Saw(run, t, n, NotReady(m.Slot(key, j)))
  }

  /** Who returned between states n and n + 1, and with what. */
  lemma Returned(m: Table, run: seq<State>, n: nat, r: Return) returns (call: Call)
    requires IsRun(m, run) && n + 1 < |run| && run[n + 1].returned == run[n].returned + [r]
    ensures CallInv(m, run[n]) && Shape(m, run[n + 1])
    ensures r.thread < |run[n].threads| && run[n + 1] == Step(m, run[n], r.thread, call)
    ensures r.call == run[n].called[r.thread] && Answers(m, run[n], run[n].threads[r.thread]) == [r.answer]
  {
    var s := run[n];
    RunSteps(m, run);
    BalancedAt(m, run, n);
    assert Next(m, run[n], run[n + 1]);
    var t: nat, c :| t < |s.threads| && run[n + 1] == Step(m, s, t, c);
    call := c;
    ShapeStep(m, s, t, call);
    LogStep(m, s, t, call);
    assert run[n + 1].returned[|s.returned|] == r;
  }

  /** Every answer of every call, in every run and under every interleaving, is right. */
  lemma AnswersAreRight(m: Table, run: seq<State>, n: nat, r: Return)
    requires IsRun(m, run) && n + 1 < |run| && run[n + 1].returned == run[n].returned + [r]
    ensures Shape(m, run[n]) && Shape(m, run[n + 1]) && Right(m, run, n, r)
  {
    var call := Returned(m, run, n, r);
    var pc := run[n].threads[r.thread];
    assert Follows(pc, r.call);
    if InSet(pc) {
      SetIsRight(m, run, n, r, call);
    } else if InFind(pc) {
      FindIsRight(m, run, n, r);
    } else {
      RemoveIsRight(m, run, n, r, call);
    }
  }

  lemma SetIsRight(m: Table, run: seq<State>, n: nat, r: Return, call: Call)
    requires IsRun(m, run) && n + 1 < |run| && CallInv(m, run[n]) && Shape(m, run[n + 1])
    requires r.thread < |run[n].threads| && run[n + 1] == Step(m, run[n], r.thread, call) && InSet(run[n].threads[r.thread])
    requires r.call == run[n].called[r.thread] && Answers(m, run[n], run[n].threads[r.thread]) == [r.answer]
    ensures Right(m, run, n, r)
  {
    var s, t := run[n], r.thread;
    var pc := s.threads[t];
    assert Follows(pc, r.call) && SetOk(m, s, pc);
    forall j: nat | Passed(m, pc, j) ensures Saw(run, t, n, Taken(m.Slot(pc.item.key, j))) {
      assert Claims(m, pc, Taken(m.Slot(pc.item.key, j)));
      ClaimsAreTrue(m, run, t, n, Taken(m.Slot(pc.item.key, j)));
    }
    if r.answer.ok {
      ValidStep(m, s, t, call, pc.b);
      assert Stores(m, run, n, t, pc.item, pc.b);
    }
  }

  lemma FindIsRight(m: Table, run: seq<State>, n: nat, r: Return)
    requires IsRun(m, run) && n + 1 < |run| && CallInv(m, run[n]) && Shape(m, run[n + 1])
    requires r.thread < |run[n].threads| && InFind(run[n].threads[r.thread])
    requires r.call == run[n].called[r.thread] && Answers(m, run[n], run[n].threads[r.thread]) == [r.answer]
    ensures Right(m, run, n, r)
  {
    var s, t := run[n], r.thread;
    var pc := s.threads[t];
    assert Follows(pc, r.call) && Aims(m, s, pc);
    if pc.FindValue? {
      ClaimsAreTrue(m, run, t, n, Valid(pc.b));
      ClaimsAreTrue(m, run, t, n, HasKey(pc.b, pc.key));
      assert Finds(m, run, n, t, pc.key, pc.b, r.answer.value);
    } else {
      forall j: nat | j < m.probes ensures Saw(run, t, n, Lacks(m.Slot(pc.key, j), pc.key)) {
        ClaimsAreTrue(m, run, t, n, Lacks(m.Slot(pc.key, j), pc.key));
      }
    }
  }

  lemma RemoveIsRight(m: Table, run: seq<State>, n: nat, r: Return, call: Call)
    requires IsRun(m, run) && n + 1 < |run| && CallInv(m, run[n]) && Shape(m, run[n + 1])
    requires r.thread < |run[n].threads| && run[n + 1] == Step(m, run[n], r.thread, call) && InRemove(run[n].threads[r.thread])
    requires r.call == run[n].called[r.thread] && Answers(m, run[n], run[n].threads[r.thread]) == [r.answer]
    ensures Right(m, run, n, r)
  {
    var s, t := run[n], r.thread;
    var pc := s.threads[t];
    assert Follows(pc, r.call) && Aims(m, s, pc);
    forall j: nat | Before(m, pc.key, j, pc.b) ensures Saw(run, t, n, NotReady(m.Slot(pc.key, j))) {
      ClaimsAreTrue(m, run, t, n, NotReady(m.Slot(pc.key, j)));
    }
    assert Passes(m, run, n, t, pc.key, pc.b);
    if pc.RemClear? {
      ValidStep(m, s, t, call, pc.b);
      assert Clears(m, run, n, pc.key, pc.b);
    } else {
      FailuresAreReal(m, run, t, n);
      EntryStep(m, s, t, call, pc.b);
      assert HoldsOk(s, pc);
      assert Leaves(m, run, n, pc.key, pc.b);
    }
  }

  /** A VALID bucket is cleared only by a Remove that was called with its key and then returns true. */
  lemma ClearedByItsRemove(m: Table, run: seq<State>, n: nat, e: nat) returns (t: nat)
    requires IsRun(m, run) && n + 1 < |run| && e < m.size
    requires Shape(m, run[n]) && Shape(m, run[n + 1]) && IsValid(run[n], e) && !IsValid(run[n + 1], e)
    ensures t < |run[n].threads| && run[n].called[t] == Call.Remove(run[n].buckets[e].key)
    ensures run[n + 1].returned == run[n].returned + [Return(t, run[n].called[t], Done(true))]
  {
    var s := run[n];
    RunSteps(m, run);
    BalancedAt(m, run, n);
    assert Next(m, run[n], run[n + 1]);
    var u: nat, call :| u < |s.threads| && run[n + 1] == Step(m, s, u, call);
    t := u;
    ValidStep(m, s, t, call, e);
    LogStep(m, s, t, call);
    assert Follows(s.threads[t], s.called[t]) && Aims(m, s, s.threads[t]);
  }

  /** A bucket becomes VALID only by a Set that was called with what it holds and then returns true. */
  lemma StoredByItsSet(m: Table, run: seq<State>, n: nat, e: nat) returns (t: nat)
    requires IsRun(m, run) && n + 1 < |run| && e < m.size
    requires Shape(m, run[n]) && Shape(m, run[n + 1]) && !IsValid(run[n], e) && IsValid(run[n + 1], e)
    ensures t < |run[n].threads| && run[n].called[t] == Call.Set(run[n + 1].buckets[e])
    ensures run[n + 1].returned == run[n].returned + [Return(t, run[n].called[t], Done(true))]
  {
    var s := run[n];
    RunSteps(m, run);
    BalancedAt(m, run, n);
    assert Next(m, run[n], run[n + 1]);
    var u: nat, call :| u < |s.threads| && run[n + 1] == Step(m, s, u, call);
    t := u;
    ValidStep(m, s, t, call, e);
    LogStep(m, s, t, call);
    assert Follows(s.threads[t], s.called[t]);
  }

  /** A Find during which one bucket of the key's window stays VALID with the key finds a value. */
  lemma FindDoesNotMiss(m: Table, run: seq<State>, n: nat, r: Return, j: nat)
    requires IsRun(m, run) && n + 1 < |run| && run[n + 1].returned == run[n].returned + [r] && r.call.Find? && m.Valid() && j < m.probes
    requires forall k: nat :: InCall(run, r.thread, k, n) ==> !True(run[k], Lacks(m.Slot(r.call.key, j), r.call.key))
    ensures r.answer.Found?
  {
    assert !Saw(run, r.thread, n, Lacks(m.Slot(r.call.key, j), r.call.key));
    AnswersAreRight(m, run, n, r);
  }

  /** A Set during which one bucket of the key's window stays free stores its item. */
  lemma SetDoesNotFail(m: Table, run: seq<State>, n: nat, r: Return, j: nat)
    requires IsRun(m, run) && n + 1 < |run| && run[n + 1].returned == run[n].returned + [r] && r.call.Set? && m.Valid() && j < m.probes
    requires forall k: nat :: InCall(run, r.thread, k, n) ==> !True(run[k], Taken(m.Slot(r.call.item.key, j)))
    ensures r.answer == Done(true)
  {
    assert !Saw(run, r.thread, n, Taken(m.Slot(r.call.item.key, j)));
    AnswersAreRight(m, run, n, r);
  }
}
