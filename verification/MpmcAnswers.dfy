/**
 What the calls of the multi-producer multi-consumer ring answer, under every interleaving.

 The calls that have returned, in the order of their returns, account for every item put in and
 taken out, and each refusal was true at some moment of the call that it answers.
 */
module MpmcAnswers {
  import opened Words
  import opened MpmcRing

  /** The items of the Enqueue calls that said they added one, oldest return first. */
  function Adds(log: seq<Return>): (items: seq<int>) {
    if log == [] then []
    else
      var n := |log| - 1;
      Adds(log[..n]) + if log[n].call.Enqueue? && log[n].answer.Added? then [log[n].call.data] else []
  }

  /** What the Dequeue calls that said they took an item returned, oldest return first. */
  function Takes(log: seq<Return>): (items: seq<int>) {
    if log == [] then []
    else
      var n := |log| - 1;
      Takes(log[..n]) + if log[n].call.Dequeue? && log[n].answer.Took? then [log[n].answer.data] else []
  }

  lemma LogGrows(log: seq<Return>, r: Return)
    ensures Adds(log + [r]) == Adds(log) + if r.call.Enqueue? && r.answer.Added? then [r.call.data] else []
    ensures Takes(log + [r]) == Takes(log) + if r.call.Dequeue? && r.answer.Took? then [r.answer.data] else []
  {
    assert (log + [r])[..|log|] == log;
  }

  // --- The calls that are under way ------------------------------------------------------------

  /** A thread works at the call that it began, on that call's data. */
  predicate Follows(pc: Pc, call: Call) {
    && (pc.Enqueuing() ==> call.Enqueue?)
    && (pc.Dequeuing() ==> call.Dequeue?)
    && (pc.EnqLocked? || pc.EnqRead? || pc.EnqCheck? || pc.EnqWrite? || pc.EnqLoad? || pc.EnqStore? ==> pc.data == call.data)
    && (pc.EnqUnlock? ==> pc.answer.Full? || pc.answer.Added?)
    && (pc.DeqUnlock? ==> pc.answer.Empty? || pc.answer.Took?)
  }

  ghost predicate AddPending(s: State) {
    exists t :: 0 <= t < |s.threads| && s.threads[t].EnqUnlock? && s.threads[t].answer.Added?
  }

  ghost predicate TakePending(s: State) {
    exists t :: 0 <= t < |s.threads| && s.threads[t].DeqUnlock? && s.threads[t].answer.Took?
  }

  /** A call that is about to say it added or took an item did so last. */
  ghost predicate Justified(s: State, t: nat)
    requires t < |s.threads| == |s.called|
  {
    var pc := s.threads[t];
    && (pc.EnqUnlock? && pc.answer.Added? && s.called[t].Enqueue? ==>
          && 0 < |s.sent| && s.sent[|s.sent| - 1] == s.called[t].data
          && pc.answer.id == Wrapped(|s.sent| - 1))
    && (pc.DeqUnlock? && pc.answer.Took? ==> 0 < |s.got| && s.got[|s.got| - 1] == pc.answer.data)
  }

  /** The request id is the 32-bit count of the items before this one. */
  function Wrapped(n: nat): (id: nat) {
    n % WRAP
  }

  /** The returned calls account for all items but the one whose call is about to return. */
  ghost predicate AddsAccounted(s: State) {
    Reported(AddPending(s), s.sent, Adds(s.returned))
  }

  ghost predicate TakesAccounted(s: State) {
    Reported(TakePending(s), s.got, Takes(s.returned))
  }

  predicate Reported(pending: bool, items: seq<int>, reports: seq<int>) {
    if pending then 0 < |items| && reports == items[..|items| - 1] else reports == items
  }

  ghost predicate ThreadsOk(s: State)
    requires |s.called| == |s.threads|
  {
    forall t: nat :: t < |s.threads| ==> Follows(s.threads[t], s.called[t]) && Justified(s, t)
  }

  // --- Every step keeps this ---------------------------------------------------------------------

  lemma MoverFollows(s: State, t: nat, call: Call)
    requires s.WellFormed() && t < |s.threads| && Follows(s.threads[t], s.called[t])
    ensures Follows(Step(s, t, call).threads[t], if s.threads[t].Idle? then call else s.called[t])
  {
  }

  /** Whether thread t is about to report an item after it moved. */
  lemma MoverAdds(s: State, t: nat, call: Call)
    requires s.WellFormed() && t < |s.threads|
    ensures var s' := Step(s, t, call);
            s'.threads[t].EnqUnlock? && s'.threads[t].answer.Added? <==> s.threads[t].EnqStore?
  {
  }

  lemma MoverTakes(s: State, t: nat, call: Call)
    requires s.WellFormed() && t < |s.threads|
    ensures var s' := Step(s, t, call);
            s'.threads[t].DeqUnlock? && s'.threads[t].answer.Took? <==> s.threads[t].DeqStore?
  {
  }

  lemma MoverJustified(s: State, t: nat, call: Call)
    requires Inv(s) && t < |s.threads| && Follows(s.threads[t], s.called[t])
    ensures var s' := Step(s, t, call); |s'.called| == |s'.threads| == |s.threads| && Justified(s', t)
  {
    OnlyMover(s, t, call);
    OnlyMoverCalls(s, t, call);
    MoverAdds(s, t, call);
    MoverTakes(s, t, call);
    if s.threads[t].EnqStore? || s.threads[t].DeqStore? {
      assert ProducerOk(s, s.threads[t]) && ConsumerOk(s, s.threads[t]);
    }
  }

  lemma OthersJustified(s: State, t: nat, call: Call, u: nat)
    requires Inv(s) && t < |s.threads| && u < |s.threads| && u != t && Justified(s, u)
    ensures var s' := Step(s, t, call); |s'.called| == |s'.threads| == |s.threads| && Justified(s', u)
  {
    OnlyMover(s, t, call);
    OnlyMoverCalls(s, t, call);
    HistoryStep(s, t, call);
    Exclusive(s, t, u);
  }

  lemma ThreadsStep(s: State, t: nat, call: Call)
    requires Inv(s) && t < |s.threads| && ThreadsOk(s)
    ensures var s' := Step(s, t, call); |s'.called| == |s'.threads| && ThreadsOk(s')
  {
    var s' := Step(s, t, call);
    OnlyMover(s, t, call);
    OnlyMoverCalls(s, t, call);
    forall u: nat | u < |s'.threads| ensures Follows(s'.threads[u], s'.called[u]) && Justified(s', u) {
      assert Follows(s.threads[t], s.called[t]);
      MoverFollows(s, t, call);
      if u == t {
        MoverJustified(s, t, call);
      } else {
        OthersJustified(s, t, call, u);
      }
    }
  }

  /** What a step adds to the history. */
  lemma HistoryStep(s: State, t: nat, call: Call)
    requires s.WellFormed() && t < |s.threads|
    ensures var s', pc := Step(s, t, call), s.threads[t];
            && s'.sent == (if pc.EnqStore? then s.sent + [pc.data] else s.sent)
            && s'.got == (if pc.DeqStore? then s.got + [pc.data] else s.got)
  {
  }

  lemma LogStep(s: State, t: nat, call: Call)
    requires s.WellFormed() && t < |s.threads|
    ensures var s', pc := Step(s, t, call), s.threads[t];
            s'.returned == (if pc.EnqUnlock? || pc.DeqUnlock? then s.returned + [Return(t, s.called[t], pc.answer)]
                            else if pc.Idle? && (if call.Enqueue? then s.eLock else s.dLock) then s.returned + [Return(t, call, Busy)]
                            else s.returned)
  {
  }

  lemma AddPendingStep(s: State, t: nat, call: Call)
    requires Inv(s) && t < |s.threads|
    ensures var s', pc := Step(s, t, call), s.threads[t];
            && AddPending(s') == (pc.EnqStore? || (AddPending(s) && !pc.EnqUnlock?))
            && (pc.EnqStore? ==> !AddPending(s)) && (pc.EnqUnlock? ==> (AddPending(s) <==> pc.answer.Added?))
  {
    var s' := Step(s, t, call);
    OnlyMover(s, t, call);
    MoverAdds(s, t, call);
    assert forall u: nat :: u < |s.threads| && u != t ==> s'.threads[u] == s.threads[u];
    forall u: nat | u < |s.threads| && u != t
      ensures !(s.threads[t].Enqueuing() && s.threads[u].Enqueuing())
    {
      Exclusive(s, t, u);
    }
    if s.threads[t].EnqStore? {
      assert s'.threads[t].EnqUnlock?;
    }
  }

  lemma TakePendingStep(s: State, t: nat, call: Call)
    requires Inv(s) && t < |s.threads|
    ensures var s', pc := Step(s, t, call), s.threads[t];
            && TakePending(s') == (pc.DeqStore? || (TakePending(s) && !pc.DeqUnlock?))
            && (pc.DeqStore? ==> !TakePending(s)) && (pc.DeqUnlock? ==> (TakePending(s) <==> pc.answer.Took?))
  {
    var s' := Step(s, t, call);
    OnlyMover(s, t, call);
    MoverTakes(s, t, call);
    assert forall u: nat :: u < |s.threads| && u != t ==> s'.threads[u] == s.threads[u];
    forall u: nat | u < |s.threads| && u != t
      ensures !(s.threads[t].Dequeuing() && s.threads[u].Dequeuing())
    {
      Exclusive(s, t, u);
    }
    if s.threads[t].DeqStore? {
      assert s'.threads[t].DeqUnlock?;
    }
  }

  /** The answer that a step gives, if it returns from a call. */
  lemma LogGrowsBy(s: State, t: nat, call: Call)
    requires s.WellFormed() && t < |s.threads| && Follows(s.threads[t], s.called[t])
    ensures var s', pc := Step(s, t, call), s.threads[t];
            && Adds(s'.returned) == Adds(s.returned) + (if pc.EnqUnlock? && pc.answer.Added? then [s.called[t].data] else [])
            && Takes(s'.returned) == Takes(s.returned) + (if pc.DeqUnlock? && pc.answer.Took? then [pc.answer.data] else [])
  {
    var pc := s.threads[t];
    LogStep(s, t, call);
    if pc.EnqUnlock? || pc.DeqUnlock? {
      LogGrows(s.returned, Return(t, s.called[t], pc.answer));
    } else if pc.Idle? {
      LogGrows(s.returned, Return(t, call, Busy));
    }
  }

  /** An item is stored, or reported, or neither. */
  lemma ReportedStep(pending: bool, items: seq<int>, reports: seq<int>, stored: seq<int>, leaves: bool, reported: seq<int>)
    requires Reported(pending, items, reports) && |stored| <= 1 && |reported| <= 1
    requires (|stored| == 1 ==> !pending && !leaves) && (leaves ==> (pending <==> |reported| == 1)) && (!leaves ==> reported == [])
    requires |reported| == 1 ==> 0 < |items| && items[|items| - 1] == reported[0]
    ensures Reported(|stored| == 1 || (pending && !leaves), items + stored, reports + reported)
  {
    if |reported| == 1 {
      assert items == items[..|items| - 1] + reported;
    }
    if stored == [] {
      assert items + stored == items;
    }
    if reported == [] {
      assert reports + reported == reports;
    }
  }

  lemma AddsStep(s: State, t: nat, call: Call)
    requires Inv(s) && t < |s.threads| && ThreadsOk(s) && AddsAccounted(s)
    ensures AddsAccounted(Step(s, t, call))
  {
    var pc := s.threads[t];
    assert Follows(pc, s.called[t]) && Justified(s, t);
    HistoryStep(s, t, call);
    LogGrowsBy(s, t, call);
    AddPendingStep(s, t, call);
    var stored := if pc.EnqStore? then [pc.data] else [];
    var reported := if pc.EnqUnlock? && pc.answer.Added? then [s.called[t].data] else [];
    assert s.sent + [] == s.sent;
    ReportedStep(AddPending(s), s.sent, Adds(s.returned), stored, pc.EnqUnlock?, reported);
  }

  lemma TakesStep(s: State, t: nat, call: Call)
    requires Inv(s) && t < |s.threads| && ThreadsOk(s) && TakesAccounted(s)
    ensures TakesAccounted(Step(s, t, call))
  {
    var pc := s.threads[t];
    assert Follows(pc, s.called[t]) && Justified(s, t);
    HistoryStep(s, t, call);
    LogGrowsBy(s, t, call);
    TakePendingStep(s, t, call);
    var stored := if pc.DeqStore? then [pc.data] else [];
    var reported := if pc.DeqUnlock? && pc.answer.Took? then [pc.answer.data] else [];
    assert s.got + [] == s.got;
    ReportedStep(TakePending(s), s.got, Takes(s.returned), stored, pc.DeqUnlock?, reported);
  }

  // --- Whole runs ----------------------------------------------------------------------------------

  ghost predicate Good(s: State) {
    0 < |s.queue| && Legible(s) && Inv(s) && ThreadsOk(s) && AddsAccounted(s) && TakesAccounted(s)
  }

  /** Every state of the run is good and every state but the first is a step from the one before. */
  ghost predicate Sound(run: seq<State>) {
    && (forall k: nat :: k < |run| ==> Good(run[k]))
    && forall k: nat :: k + 1 < |run| ==> run[k].WellFormed() && Next(run[k], run[k + 1])
  }

  lemma {:induction false} RunsAreSound(run: seq<State>)
    requires IsRun(run) && 0 < |run[|run| - 1].queue| && Legible(run[|run| - 1])
    ensures Sound(run)
    decreases |run|
  {
    var n := |run| - 1;
    if n > 0 {
      var t: nat, call :| IsStep(run[n - 1], run[n], t, call);
      StepGrows(run[n - 1], t, call);
      RunsAreSound(run[..n]);
      assert Good(run[..n][n - 1]);
      ThreadsStep(run[n - 1], t, call);
      AddsStep(run[n - 1], t, call);
      TakesStep(run[n - 1], t, call);
      InvHolds(run);
      SoundGrows(run);
    } else {
      InvHolds(run);
    }
  }

  lemma SoundGrows(run: seq<State>)
    requires 1 < |run| && Sound(run[..|run| - 1]) && Good(run[|run| - 1])
    requires run[|run| - 2].WellFormed() && Next(run[|run| - 2], run[|run| - 1])
    ensures Sound(run)
  {
    AllStates(run, run[..|run| - 1], Good);
    AllSteps(run, run[..|run| - 1], (s: State, s': State) => s.WellFormed() && Next(s, s'));
  }

  lemma AllStates(run: seq<State>, init: seq<State>, P: State -> bool)
    requires 1 < |run| && init == run[..|run| - 1] && (forall k: nat :: k < |init| ==> P(init[k])) && P(run[|run| - 1])
    ensures forall k: nat :: k < |run| ==> P(run[k])
  {
    forall k: nat | k < |init| ensures P(run[k]) {
      assert init[k] == run[k];
    }
  }

  lemma AllSteps(run: seq<State>, init: seq<State>, R: (State, State) -> bool)
    requires 1 < |run| && init == run[..|run| - 1] && R(run[|run| - 2], run[|run| - 1])
    requires forall k: nat :: k + 1 < |init| ==> R(init[k], init[k + 1])
    ensures forall k: nat :: k + 1 < |run| ==> R(run[k], run[k + 1])
  {
    forall k: nat | k + 1 < |run| ensures R(run[k], run[k + 1]) {
      if k + 1 < |init| {
        assert init[k] == run[k] && init[k + 1] == run[k + 1];
      }
    }
  }

  /** Thread t was inside one and the same call from state k to state n. */
  ghost predicate InCall(run: seq<State>, t: nat, k: nat, n: nat) {
    k <= n < |run| && forall x :: k <= x <= n ==> t < |run[x].threads| && !run[x].threads[t].Idle?
  }

  /** At some moment of the call that thread t is in, the ring held `depth` items. */
  ghost predicate SawDepth(run: seq<State>, t: nat, n: nat, depth: int) {
    exists k: nat :: InCall(run, t, k, n) && |run[k].sent| - |run[k].got| == depth
  }

  lemma SawEarlier(run: seq<State>, t: nat, n: nat, depth: int)
    requires SawDepth(run, t, n, depth) && n + 1 < |run|
    requires t < |run[n + 1].threads| && !run[n + 1].threads[t].Idle?
    ensures SawDepth(run, t, n + 1, depth)
  {
    var k: nat :| InCall(run, t, k, n) && |run[k].sent| - |run[k].got| == depth;
    assert InCall(run, t, k, n + 1);
  }

  lemma SawNow(run: seq<State>, t: nat, n: nat)
    requires n < |run| && t < |run[n].threads| && !run[n].threads[t].Idle?
    ensures SawDepth(run, t, n, |run[n].sent| - |run[n].got|)
  {
    assert InCall(run, t, n, n);
  }

  /** The depth that thread t noted, or that its refusal claims. */
  ghost predicate Noted(s: State, t: nat, depth: int)
    requires t < |s.threads|
  {
    var pc := s.threads[t];
    || ((pc.EnqCheck? || pc.DeqRead? || pc.DeqCheck?) && pc.seen == depth)
    || (pc.EnqUnlock? && pc.answer.Full? && depth == |s.queue|)
    || (pc.DeqUnlock? && pc.answer.Empty? && depth == 0)
  }

  /** A thread notes the depth that the ring has, or goes on from a note. */
  lemma NotesStep(s: State, t: nat, call: Call, depth: int)
    requires Inv(s) && t < |s.threads|
    ensures var s' := Step(s, t, call);
            && t < |s'.threads| && |s'.queue| == |s.queue|
            && (Noted(s', t, depth) ==>
                  && !s'.threads[t].Idle?
                  && (Noted(s, t, depth) || depth == |s'.sent| - |s'.got|))
  {
    OnlyMover(s, t, call);
    assert ProducerOk(s, s.threads[t]) && ConsumerOk(s, s.threads[t]);
  }

  lemma {:induction false} NotesAreTrue(run: seq<State>, t: nat, n: nat, depth: int)
    requires Sound(run) && n < |run| && Init(run[0]) && t < |run[n].threads| && Noted(run[n], t, depth)
    ensures SawDepth(run, t, n, depth)
    decreases n
  {
    if n > 0 {
      var s := run[n - 1];
      assert Good(s) && run[n - 1 + 1] == run[n];
      var u: nat, call :| IsStep(s, run[n], u, call);
      OnlyMover(s, u, call);
      StepGrows(s, u, call);
      if u == t {
        NotesStep(s, t, call, depth);
      }
      if Noted(s, t, depth) {
        NotesAreTrue(run, t, n - 1, depth);
        SawEarlier(run, t, n - 1, depth);
      } else {
        SawNow(run, t, n);
      }
    }
  }

  // --- What it means -----------------------------------------------------------------------------------

  /** Another thread is inside the critical section that this call needs. */
  ghost predicate Occupied(s: State, call: Call) {
    exists u :: 0 <= u < |s.threads| && if call.Enqueue? then s.threads[u].Enqueuing() else s.threads[u].Dequeuing()
  }

  /**
   An answer given in state n. Busy: another call of its kind was under way. Full or Empty: the
   ring was, at some moment of the call. Added: the item is the next one after those that the
   earlier answers account for, and the id is its number. Took: the item is the next to come out.
   */
  ghost predicate Right(run: seq<State>, n: nat, r: Return)
    requires n < |run|
  {
    var s := run[n];
    match r.answer
    case Busy => Occupied(s, r.call)
    case Full => r.call.Enqueue? && SawDepth(run, r.thread, n, |s.queue|)
    case Empty => r.call.Dequeue? && SawDepth(run, r.thread, n, 0)
    case Added(id) =>
      && r.call.Enqueue? && |s.sent| == |Adds(s.returned)| + 1
      && s.sent[|Adds(s.returned)|] == r.call.data && id == Wrapped(|Adds(s.returned)|)
    case Took(data) =>
      && r.call.Dequeue? && |Takes(s.returned)| < |s.sent| && data == s.sent[|Takes(s.returned)|]
  }

  lemma ReturnIsRight(run: seq<State>, n: nat, t: nat, call: Call)
    requires Sound(run) && n < |run| && Init(run[0]) && t < |run[n].threads|
    requires run[n].threads[t].EnqUnlock? || run[n].threads[t].DeqUnlock?
    ensures Good(run[n]) && Right(run, n, Return(t, run[n].called[t], run[n].threads[t].answer))
  {
    var s := run[n];
    var pc := s.threads[t];
    assert Good(s) && Follows(pc, s.called[t]) && Justified(s, t);
    if pc.answer.Full? {
      NotesAreTrue(run, t, n, |s.queue|);
    } else if pc.answer.Empty? {
      NotesAreTrue(run, t, n, 0);
    } else if pc.answer.Added? {
      assert AddPending(s);
    } else {
      assert TakePending(s);
    }
  }

  /**
   Every call that returns, in every run and under every interleaving, is answered rightly; and the
   answers account for the items: all put in, and all taken out, by calls that have returned.
   */
  lemma AnswersAreRight(run: seq<State>, n: nat, r: Return)
    requires IsRun(run) && 0 < |run[|run| - 1].queue| && Legible(run[|run| - 1])
    requires n + 1 < |run| && run[n + 1].returned == run[n].returned + [r]
    ensures Right(run, n, r)
  {
    RunsAreSound(run);
    RunStarts(run);
    var s := run[n];
    assert Good(s);
    var t: nat, call :| IsStep(s, run[n + 1], t, call);
    LogStep(s, t, call);
    assert run[n + 1].returned[|s.returned|] == r;
    if s.threads[t].Idle? {
      assert r == Return(t, call, Busy);
    } else {
      ReturnIsRight(run, n, t, call);
    }
  }

  lemma {:induction false} RunStarts(run: seq<State>)
    requires IsRun(run)
    ensures Init(run[0])
    decreases |run|
  {
    if |run| > 1 {
      RunStarts(run[..|run| - 1]);
    }
  }

  /** A step returns from at most one call, and from none without an entry in the log. */
  lemma ReturnsAreLogged(s: State, t: nat, call: Call)
    requires s.WellFormed() && t < |s.threads|
    ensures var s' := Step(s, t, call);
            && (s'.returned == s.returned || exists r: Return :: r.thread == t && s'.returned == s.returned + [r])
            && (s'.returned != s.returned <==> s'.threads[t].Idle?)
  {
    LogStep(s, t, call);
    PcReturns(s, t, call);
  }

  lemma PcReturns(s: State, t: nat, call: Call)
    requires s.WellFormed() && t < |s.threads|
    ensures var s', pc := Step(s, t, call), s.threads[t];
            s'.threads[t].Idle? <==> pc.EnqUnlock? || pc.DeqUnlock? || (pc.Idle? && if call.Enqueue? then s.eLock else s.dLock)
  {
  }

  /** When no call is under way, the answers account for every item. */
  lemma AnswersAccountForItems(run: seq<State>, s: State)
    requires IsRun(run) && s == run[|run| - 1] && 0 < |s.queue| && Legible(s)
    requires forall t :: 0 <= t < |s.threads| ==> s.threads[t].Idle?
    ensures s.sent == Adds(s.returned) && s.got == Takes(s.returned) && Takes(s.returned) <= Adds(s.returned)
  {
    RunsAreSound(run);
    assert Good(s);
  }

  // --- No call waits ---------------------------------------------------------------------------------------

  /** How many steps of its own a thread is away from returning, at most. */
  function StepsLeft(pc: Pc): (n: nat)
    ensures n <= 7 && (n == 0 <==> pc.Idle?)
  {
    match pc
    case Idle => 0
    case EnqLocked(_) => 7
    case EnqRead(_, _) => 6
    case EnqCheck(_, _, _, _) => 5
    case EnqWrite(_, _) => 4
    case EnqLoad(_, _) => 3
    case EnqStore(_, _, _) => 2
    case EnqUnlock(_) => 1
    case DeqLocked => 7
    case DeqRead(_, _) => 6
    case DeqCheck(_, _, _) => 5
    case DeqCopy(_) => 4
    case DeqLoad(_) => 3
    case DeqStore(_, _) => 2
    case DeqUnlock(_) => 1
  }

  /** Every step of its own brings a call closer to its return, whatever the others do. */
  lemma CallsDoNotWait(s: State, t: nat, call: Call, u: nat)
    requires s.WellFormed() && t < |s.threads| && u < |s.threads| && !s.threads[u].Idle?
    ensures var s' := Step(s, t, call);
            && u < |s'.threads|
            && if u == t then StepsLeft(s'.threads[u]) < StepsLeft(s.threads[u]) else s'.threads[u] == s.threads[u]
  {
    OnlyMover(s, t, call);
    if u == t {
      MoverAdvances(s, t, call);
    }
  }

  lemma MoverAdvances(s: State, t: nat, call: Call)
    requires s.WellFormed() && t < |s.threads| && !s.threads[t].Idle?
    ensures StepsLeft(Step(s, t, call).threads[t]) < StepsLeft(s.threads[t])
  {
  }
}
