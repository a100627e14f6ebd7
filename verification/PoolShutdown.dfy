/** One SetCapacity against one Close.

Close gives the connection pool's mutex back before it resizes, so it can overlap a
SetCapacity that took the mutex in between.  This module says when the overlap can panic,
and that a client which never takes the pool to zero by SetCapacity panics in no other way.
 */
module PoolShutdown {
  import opened Common
  import opened ResourcePool
  import opened ResourcePoolSafety
  import opened ResourcePoolRuns
  import opened ConnectionPool
  import opened PoolProgress

  // ------------------------------------------------------------------ the overlap

  // SetCapacity in its loop, to a capacity above zero.
  predicate Resizer(pc: Pc) {
    InLoop(pc) && pc.resize.target >= 1
  }

  // Close in its loop.
  predicate Closer(pc: Pc) {
    pc.Resize? && InDrain(pc.resize) && pc.resize.target == 0
  }

  // p1 is still in its loop; a p1 that is no process stands for nobody.
  predicate LoopAt(procs: seq<Pc>, p1: nat) {
    p1 < |procs| && InLoop(procs[p1])
  }

  // The channel is open and Close drains in p2; p1 is SetCapacity while it is in its loop.
  // Other resizes have not exchanged the capacity, and will find it gone.
  ghost predicate Open(s: State, p1: nat, p2: nat) {
    && Books(s) && s.pool.fault == NoFault && Flags(s.pool) && !s.pool.closed
    && Placed(s.procs, p1, p2, s.pool.maxCap)
  }

  ghost predicate Placed(procs: seq<Pc>, p1: nat, p2: nat, maxCap: nat) {
    && p2 < |procs| && p1 != p2 && Closer(procs[p2])
    && (LoopAt(procs, p1) ==> Resizer(procs[p1]))
    && (forall i :: 0 <= i < |procs| && i != p1 && i != p2 ==> !InLoop(procs[i]))
    && DueAt(procs, p1) + Due(procs[p2]) <= maxCap
  }

  lemma PlacedStays(procs: seq<Pc>, p1: nat, p2: nat, maxCap: nat, q: nat, pc: Pc)
    requires Placed(procs, p1, p2, maxCap) && q < |procs| && !InLoop(procs[q]) && !InLoop(pc)
    ensures Placed(procs[q := pc], p1, p2, maxCap) && LoopAt(procs[q := pc], p1) == LoopAt(procs, p1)
    ensures LoopAt(procs, p1) ==> procs[q := pc][p1] == procs[p1]
  {
  }

  ghost predicate Flags(g: Pool) {
    g.capacity == 0 && g.sweepStopped
  }

  ghost predicate Overlap(s: State, p1: nat, p2: nat) {
    Open(s, p1, p2) && LoopAt(s.procs, p1)
  }

  predicate Fetching(pc: Pc) {
    pc.Get? && pc.get.Fetch?
  }

  ghost predicate HasFetch(s: State) {
    exists i :: 0 <= i < |s.procs| && Fetching(s.procs[i])
  }

  lemma FetchComesFrom(s: State, s': State, q: nat)
    requires q < |s.procs| == |s'.procs| && s'.procs == s.procs[q := s'.procs[q]]
    ensures HasFetch(s') ==> HasFetch(s) || Fetching(s'.procs[q])
  {
    if HasFetch(s') {
      var i :| 0 <= i < |s'.procs| && Fetching(s'.procs[i]);
      if i != q { assert Fetching(s.procs[i]); }
    }
  }

  // -------------------------------------------------------------------- the books

  lemma SumOnlyTwo(m: Measure, procs: seq<Pc>, p: nat, q: nat)
    requires p < |procs| && q < |procs| && p != q
    requires forall i :: 0 <= i < |procs| && i != p && i != q ==> Weight(m, procs[i]) == 0
    ensures Sum(m, procs) == Weight(m, procs[p]) + Weight(m, procs[q])
  {
    SumUpdate(m, procs, p, Idle);
    SumOnly(m, procs[p := Idle], q);
  }

  // What is queued or in hands is what both have still to take out, less what is to come.
  lemma OpenTokens(s: State, p1: nat, p2: nat)
    requires Open(s, p1, p2)
    ensures |s.pool.queue| + Sum(Tokens, s.procs) == DueAt(s.procs, p1) + Due(s.procs[p2]) - OwedAt(s.procs, p1)
    ensures 0 <= OwedAt(s.procs, p1) && 0 <= DueAt(s.procs, p1) && 0 <= Due(s.procs[p2])
  {
    assert PcOk(s.pool, s.procs[p2]);
    DueNonNegative(s.pool, s.procs[p2]);
    if p1 < |s.procs| {
      assert PcOk(s.pool, s.procs[p1]);
      DueNonNegative(s.pool, s.procs[p1]);
    }
    OnlyTwoMove(s.procs, p1, p2, s.pool.maxCap);
  }

  lemma DueNonNegative(g: Pool, pc: Pc)
    requires PcOk(g, pc)
    ensures Due(pc) >= 0 && Owed(pc) >= 0
  {
  }

  lemma OnlyTwoMove(procs: seq<Pc>, p1: nat, p2: nat, maxCap: nat)
    requires Placed(procs, p1, p2, maxCap)
    ensures Sum(ToDrain, procs) == DueAt(procs, p1) + Due(procs[p2]) && Sum(ToFill, procs) == OwedAt(procs, p1)
  {
    if p1 < |procs| {
      SumOnlyTwo(ToDrain, procs, p1, p2);
      SumOnlyTwo(ToFill, procs, p1, p2);
    } else {
      SumOnly(ToDrain, procs, p2);
      SumOnly(ToFill, procs, p2);
    }
  }

  lemma TokensFit(s: State, p1: nat, p2: nat, q: nat)
    requires Open(s, p1, p2) && q < |s.procs|
    ensures |s.pool.queue| + Weight(Tokens, s.procs[q]) <= s.pool.maxCap
  {
    OpenTokens(s, p1, p2);
    SumAtLeast(Tokens, s.procs, q);
  }

  // With room for its token a step on an open channel does not panic.
  lemma OpenStepIsSafe(g: Pool, pc: Pc, sweepRuns: bool, c: Choice)
    requires LocalStep(g, pc, sweepRuns, c).Some? && g.fault == NoFault && !g.closed
    requires |g.queue| + Contribution(pc).tokens <= g.maxCap
    ensures LocalStep(g, pc, sweepRuns, c).value.pool.fault == NoFault
  {
    if pc.Put? && pc.put.Return? { assert Contribution(pc).tokens == 1; }
  }

  lemma NoSweeps(s: State, q: nat)
    requires Shape(s) && s.pool.sweepStopped && q < |s.procs|
    ensures !s.procs[q].Sweep?
  {
    SumAtLeast(Sweeping, s.procs, q);
  }

  // ------------------------------------------------------------------- no panic

  // While SetCapacity holds the mutex: it has nothing left to take, or more tokens are
  // pinned than it can leave in circulation, or nobody has a token or can get one.
  ghost predicate Harmless(s: State, p1: nat) {
    || !LoopAt(s.procs, p1) || Due(s.procs[p1]) == 0 || Sum(Pinned, s.procs) > Due(s.procs[p1])
    || (Sum(Tokens, s.procs) == 0 && !HasFetch(s))
  }

  // The channel is closed: nobody holds a token, and what is queued SetCapacity takes.
  ghost predicate Shut(s: State, p1: nat) {
    && s.pool.fault == NoFault && s.pool.closed && Flags(s.pool) && ResizersOk(s)
    && (LoopAt(s.procs, p1) ==> Resizer(s.procs[p1]) && Owed(s.procs[p1]) == 0)
    && (forall i :: 0 <= i < |s.procs| ==> Weight(Tokens, s.procs[i]) == 0 && !s.procs[i].Sweep?)
    && OnlyLoops(s.procs, p1)
    && (s.pool.queue == [] ||
        (LoopAt(s.procs, p1) && InDrain(s.procs[p1].resize) && |s.pool.queue| <= Due(s.procs[p1]) && !HasFetch(s)))
  }

  lemma ResizerMoves(g: Pool, pc: ResizePc)
    requires Resizer(Resize(pc)) && ResizeOk(g, pc) && ResizeStep(g, pc).Some? && !g.closed
    ensures var l := ResizeStep(g, pc).value;
      && (l.pc == Idle || Resizer(l.pc)) && !l.pool.closed
      && l.pool.capacity == g.capacity && l.pool.sweepStopped == g.sweepStopped && l.pool.maxCap == g.maxCap
      && Due(l.pc) <= Due(Resize(pc)) && Weight(Tokens, l.pc) == 0 && PinnedBy(l.pc) == 0
      && (l.pc == Idle ==> Due(Resize(pc)) == 0)
  {
  }

  lemma CloserMoves(g: Pool, pc: ResizePc)
    requires Closer(Resize(pc)) && ResizeOk(g, pc) && ResizeStep(g, pc).Some? && !g.closed
    ensures var l := ResizeStep(g, pc).value;
      && l.pool.capacity == g.capacity && l.pool.sweepStopped == g.sweepStopped && l.pool.maxCap == g.maxCap
      && Weight(Tokens, l.pc) == 0 && PinnedBy(l.pc) == 0
      && (if pc == Drain(0, 0) then l == Local(g.(closed := true), Idle)
          else Closer(l.pc) && !l.pool.closed && Due(l.pc) <= Due(Resize(pc)))
  {
  }

  lemma OtherMoves(g: Pool, pc: Pc, sweepRuns: bool, c: Choice)
    requires !InLoop(pc) && !pc.Sweep? && Flags(g) && LocalStep(g, pc, sweepRuns, c).Some?
    requires pc.Resize? ==> ResizeOk(g, pc.resize)
    ensures var l := LocalStep(g, pc, sweepRuns, c).value;
      && !InLoop(l.pc) && !l.pc.Sweep? && l.pool.closed == g.closed
      && l.pool.capacity == g.capacity && l.pool.sweepStopped && l.pool.maxCap == g.maxCap
  {
  }

  // Without a token and not fetching, a process under the mutex stays so.
  lemma EmptyHandsStay(g: Pool, pc: Pc, sweepRuns: bool, c: Choice)
    requires !InLoop(pc) && !pc.Sweep? && g.sweepStopped && LocalStep(g, pc, sweepRuns, c).Some? && !NeedsMutex(pc, c)
    requires pc.Resize? ==> g.capacity == 0 && ResizeOk(g, pc.resize)
    requires Weight(Tokens, pc) == 0 && !Fetching(pc)
    ensures var l := LocalStep(g, pc, sweepRuns, c).value; Weight(Tokens, l.pc) == 0 && !Fetching(l.pc)
  {
  }

  lemma OpenKeepsBooks(s: State, p1: nat, p2: nat, q: nat, c: Choice)
    requires Open(s, p1, p2) && Step(s, q, c).Some?
    ensures var s' := Step(s, q, c).value; Books(s') && s'.pool.fault == NoFault
  {
    StepKeepsBooks(s, q, c);
    TokensFit(s, p1, p2, q);
    OpenStepIsSafe(s.pool, s.procs[q], SweepRuns(s.procs), c);
  }

  lemma FirstStaysOpen(s: State, p1: nat, p2: nat, c: Choice)
    requires Overlap(s, p1, p2) && Step(s, p1, c).Some?
    ensures var s' := Step(s, p1, c).value; Open(s', p1, p2) && (s'.procs[p1] == Idle || Resizer(s'.procs[p1]))
    ensures var s' := Step(s, p1, c).value;
      0 <= Due(s'.procs[p1]) <= Due(s.procs[p1]) && (s'.procs[p1] == Idle ==> Due(s.procs[p1]) == 0)
  {
    OpenKeepsBooks(s, p1, p2, p1, c);
    assert PcOk(s.pool, s.procs[p1]);
    ResizerMoves(s.pool, s.procs[p1].resize);
    OpenTokens(Step(s, p1, c).value, p1, p2);
  }

  lemma FirstStaysHarmless(s: State, s': State, p1: nat)
    requires p1 < |s.procs| == |s'.procs| && s'.procs == s.procs[p1 := s'.procs[p1]]
    requires InLoop(s.procs[p1]) && Harmless(s, p1) && (s'.procs[p1] == Idle || Resizer(s'.procs[p1]))
    requires 0 <= Due(s'.procs[p1]) <= Due(s.procs[p1])
    ensures Harmless(s', p1)
  {
    SumUpdate(Pinned, s.procs, p1, s'.procs[p1]);
    SumUpdate(Tokens, s.procs, p1, s'.procs[p1]);
    FetchComesFrom(s, s', p1);
  }

  lemma FirstStep(s: State, p1: nat, p2: nat, c: Choice)
    requires Overlap(s, p1, p2) && Harmless(s, p1) && Step(s, p1, c).Some?
    ensures var s' := Step(s, p1, c).value; Open(s', p1, p2) && Harmless(s', p1)
  {
    FirstStaysOpen(s, p1, p2, c);
    FirstStaysHarmless(s, Step(s, p1, c).value, p1);
  }

  lemma SecondStaysOpen(s: State, p1: nat, p2: nat, c: Choice)
    requires Open(s, p1, p2) && Step(s, p2, c).Some? && s.procs[p2].resize != Drain(0, 0)
    ensures var s' := Step(s, p2, c).value;
      Open(s', p1, p2) && Closer(s'.procs[p2]) && Due(s'.procs[p2]) <= Due(s.procs[p2])
  {
    OpenKeepsBooks(s, p1, p2, p2, c);
    assert PcOk(s.pool, s.procs[p2]);
    CloserMoves(s.pool, s.procs[p2].resize);
  }

  lemma SecondKeepsSums(s: State, s': State, p2: nat)
    requires p2 < |s.procs| == |s'.procs| && s'.procs == s.procs[p2 := s'.procs[p2]]
    requires Closer(s.procs[p2]) && Closer(s'.procs[p2])
    ensures Sum(Pinned, s'.procs) == Sum(Pinned, s.procs) && Sum(Tokens, s'.procs) == Sum(Tokens, s.procs)
  {
    SumUpdate(Pinned, s.procs, p2, s'.procs[p2]);
    SumUpdate(Tokens, s.procs, p2, s'.procs[p2]);
  }

  lemma SecondStep(s: State, p1: nat, p2: nat, c: Choice)
    requires Open(s, p1, p2) && Harmless(s, p1) && Step(s, p2, c).Some?
    ensures var s' := Step(s, p2, c).value; (Open(s', p1, p2) && Harmless(s', p1)) || Shut(s', p1)
    ensures s.procs[p2].resize != Drain(0, 0) ==> Open(Step(s, p2, c).value, p1, p2)
  {
    var s' := Step(s, p2, c).value;
    if s.procs[p2].resize == Drain(0, 0) {
      Closes(s, p1, p2, s');
    } else {
      SecondStaysOpen(s, p1, p2, c);
      SecondKeepsSums(s, s', p2);
      FetchComesFrom(s, s', p2);
    }
  }

  // Nobody sweeps, and everybody's resize is in order.
  lemma OpenProcess(s: State, p1: nat, p2: nat, i: nat)
    requires Open(s, p1, p2) && Sum(Tokens, s.procs) == 0 && i < |s.procs|
    ensures Weight(Tokens, s.procs[i]) == 0 && !s.procs[i].Sweep? && PcOk(s.pool, s.procs[i])
  {
    SumAtLeast(Tokens, s.procs, i);
    NoSweeps(s, i);
  }

  lemma LastTokenIn(s: State, p1: nat, p2: nat)
    requires Open(s, p1, p2) && Harmless(s, p1) && s.procs[p2] == Resize(Drain(0, 0))
    ensures Sum(Tokens, s.procs) == 0 && |s.pool.queue| == DueAt(s.procs, p1) - OwedAt(s.procs, p1)
    ensures LoopAt(s.procs, p1) && Due(s.procs[p1]) > 0 ==> !HasFetch(s)
    ensures 0 <= DueAt(s.procs, p1) && 0 <= OwedAt(s.procs, p1)
  {
    OpenTokens(s, p1, p2);
    PinnedAreTokens(s.procs);
  }

  // Close has taken all it wants: what is left is what SetCapacity still takes.
  lemma Closes(s: State, p1: nat, p2: nat, s': State)
    requires Open(s, p1, p2) && Harmless(s, p1) && s.procs[p2] == Resize(Drain(0, 0))
    requires s' == State(s.pool.(closed := true), s.procs[p2 := Idle])
    ensures Shut(s', p1)
  {
    LastTokenIn(s, p1, p2);
    forall i | 0 <= i < |s.procs|
      ensures Weight(Tokens, s.procs[i]) == 0 && !s.procs[i].Sweep? && PcOk(s.pool, s.procs[i])
    {
      OpenProcess(s, p1, p2, i);
    }
    FetchComesFrom(s, s', p2);
  }

  // A process that is not in a loop leaves the channel open and the two where they are.
  lemma OtherStaysOpen(s: State, p1: nat, p2: nat, q: nat, c: Choice)
    requires Open(s, p1, p2) && Step(s, q, c).Some? && !InLoop(s.procs[q])
    ensures var s' := Step(s, q, c).value; Open(s', p1, p2) && LoopAt(s'.procs, p1) == LoopAt(s.procs, p1)
    ensures LoopAt(s.procs, p1) ==> Step(s, q, c).value.procs[p1] == s.procs[p1]
  {
    OpenKeepsBooks(s, p1, p2, q, c);
    NoSweeps(s, q);
    assert PcOk(s.pool, s.procs[q]);
    OtherMoves(s.pool, s.procs[q], SweepRuns(s.procs), c);
    PlacedStays(s.procs, p1, p2, s.pool.maxCap, q, Step(s, q, c).value.procs[q]);
  }

  // The mutex is SetCapacity's until it leaves its loop.
  ghost predicate Permitted(s: State, p1: nat, q: nat, c: Choice)
    requires q < |s.procs|
  {
    LoopAt(s.procs, p1) ==> !NeedsMutex(s.procs[q], c)
  }

  lemma ThirdStep(s: State, p1: nat, p2: nat, q: nat, c: Choice)
    requires Open(s, p1, p2) && Harmless(s, p1) && Step(s, q, c).Some? && Permitted(s, p1, q, c) && !InLoop(s.procs[q])
    ensures var s' := Step(s, q, c).value; Open(s', p1, p2) && Harmless(s', p1)
  {
    OtherStaysOpen(s, p1, p2, q, c);
    if LoopAt(s.procs, p1) { ThirdStaysHarmless(s, p1, q, c); }
  }

  lemma ThirdStaysHarmless(s: State, p1: nat, q: nat, c: Choice)
    requires Shape(s) && Flags(s.pool) && LoopAt(s.procs, p1) && Harmless(s, p1)
    requires q < |s.procs| && !InLoop(s.procs[q]) && Step(s, q, c).Some? && !NeedsMutex(s.procs[q], c)
    ensures Harmless(Step(s, q, c).value, p1)
  {
    NoSweeps(s, q);
    assert PcOk(s.pool, s.procs[q]);
    if Sum(Tokens, s.procs) == 0 && !HasFetch(s) {
      HandsStayEmpty(s, q, c);
    } else {
      OtherKeepsPinned(s, q, c);
    }
  }

  lemma OtherKeepsPinned(s: State, q: nat, c: Choice)
    requires q < |s.procs| && !InLoop(s.procs[q]) && Step(s, q, c).Some? && !NeedsMutex(s.procs[q], c)
    requires s.procs[q].Resize? ==> s.pool.capacity == 0 && ResizeOk(s.pool, s.procs[q].resize)
    ensures Sum(Pinned, Step(s, q, c).value.procs) >= Sum(Pinned, s.procs)
  {
    OtherStaysPinned(s.pool, s.procs[q], SweepRuns(s.procs), c);
    SumUpdate(Pinned, s.procs, q, Step(s, q, c).value.procs[q]);
  }

  lemma HandsStayEmpty(s: State, q: nat, c: Choice)
    requires Flags(s.pool) && q < |s.procs| && !InLoop(s.procs[q]) && !s.procs[q].Sweep?
    requires s.procs[q].Resize? ==> ResizeOk(s.pool, s.procs[q].resize)
    requires Step(s, q, c).Some? && !NeedsMutex(s.procs[q], c) && Sum(Tokens, s.procs) == 0 && !HasFetch(s)
    ensures var s' := Step(s, q, c).value; Sum(Tokens, s'.procs) == 0 && !HasFetch(s')
  {
    var s' := Step(s, q, c).value;
    SumAtLeast(Tokens, s.procs, q);
    EmptyHandsStay(s.pool, s.procs[q], SweepRuns(s.procs), c);
    SumUpdate(Tokens, s.procs, q, s'.procs[q]);
    FetchComesFrom(s, s', q);
  }

  lemma ShutResizerMoves(g: Pool, pc: ResizePc)
    requires Resizer(Resize(pc)) && Owed(Resize(pc)) == 0 && ResizeOk(g, pc) && g.closed && ResizeStep(g, pc).Some?
    requires g.queue == [] || (InDrain(pc) && |g.queue| <= Due(Resize(pc)))
    ensures var l := ResizeStep(g, pc).value;
      && l.pool.fault == g.fault && l.pool.closed && l.pool.capacity == g.capacity
      && l.pool.sweepStopped == g.sweepStopped && l.pool.maxCap == g.maxCap
      && (if l.pc == Idle then l.pool.queue == []
          else Resizer(l.pc) && Owed(l.pc) == 0 && ResizeOk(l.pool, l.pc.resize) &&
               (l.pool.queue == [] || (InDrain(l.pc.resize) && |l.pool.queue| <= Due(l.pc))))
  {
  }

  lemma ShutOtherMoves(g: Pool, pc: Pc, sweepRuns: bool, c: Choice)
    requires !InLoop(pc) && !pc.Sweep? && Flags(g) && LocalStep(g, pc, sweepRuns, c).Some?
    requires pc.Resize? ==> ResizeOk(g, pc.resize)
    requires Weight(Tokens, pc) == 0 && g.closed && (Fetching(pc) ==> g.queue == [])
    ensures var l := LocalStep(g, pc, sweepRuns, c).value;
      && Weight(Tokens, l.pc) == 0 && !InLoop(l.pc) && !l.pc.Sweep?
      && l.pool.fault == g.fault && l.pool.closed && Flags(l.pool)
      && l.pool.queue == g.queue && (Fetching(l.pc) ==> pc == Idle && c == CallGet)
  {
  }

  lemma ShutStep(s: State, p1: nat, q: nat, c: Choice)
    requires Shut(s, p1) && Step(s, q, c).Some? && Permitted(s, p1, q, c)
    ensures Shut(Step(s, q, c).value, p1)
  {
    var s' := Step(s, q, c).value;
    StepKeepsResizers(s, q, c);
    if q == p1 && InLoop(s.procs[p1]) {
      ShutResizerMoves(s.pool, s.procs[p1].resize);
    } else {
      assert !InLoop(s.procs[q]) && !s.procs[q].Sweep?;
      ShutOtherMoves(s.pool, s.procs[q], SweepRuns(s.procs), c);
    }
    FetchComesFrom(s, s', q);
  }

  ghost predicate Safe(s: State, p1: nat, p2: nat) {
    (Open(s, p1, p2) && Harmless(s, p1)) || Shut(s, p1)
  }

  lemma StaysSafe(s: State, p1: nat, p2: nat, q: nat, c: Choice)
    requires Safe(s, p1, p2) && Step(s, q, c).Some? && Permitted(s, p1, q, c)
    ensures Safe(Step(s, q, c).value, p1, p2)
  {
    if Shut(s, p1) {
      ShutStep(s, p1, q, c);
    } else if q == p2 {
      SecondStep(s, p1, p2, c);
    } else if InLoop(s.procs[q]) {
      FirstStep(s, p1, p2, c);
    } else {
      ThirdStep(s, p1, p2, q, c);
    }
  }

  // --------------------------------------------------------------- runs of the client

  lemma LooperHolds(a: Client, p1: nat)
    requires Tidy(a) && LoopAt(a.core.procs, p1) && Resizer(a.core.procs[p1])
    ensures a.holder == Some(p1)
  {
    CloserTarget(a, p1);
  }

  lemma SafeNext(a: Client, b: Client, p1: nat, p2: nat)
    requires Tidy(a) && Safe(a.core, p1, p2) && ClientNext(a, b)
    ensures Safe(b.core, p1, p2)
  {
    var q, c := NextMoves(a, b);
    if !Bookkeeping(a, b) {
      if LoopAt(a.core.procs, p1) { LooperHolds(a, p1); }
      StaysSafe(a.core, p1, p2, q, c);
    }
  }

  // SetCapacity is not used to take the pool down to zero.
  ghost predicate Nonzero(a: Client) {
    a.holder.Some? && a.holder.value < |a.core.procs| && a.core.procs[a.holder.value].Resize? ==>
      a.core.procs[a.holder.value].resize.target >= 1
  }

  lemma RunningStepIsSafe(a: Client, q: nat, c: Choice)
    requires Running(a) && Step(a.core, q, c).Some?
    ensures var s := Step(a.core, q, c).value; Books(s) && s.pool.fault == NoFault
  {
    RunningIsRoomy(a);
    RoomFor(a, q);
    StepKeepsBooks(a.core, q, c);
    OpenStepIsSafe(a.core.pool, a.core.procs[q], SweepRuns(a.core.procs), c);
  }

  // Get, Put, the sweep, or a call that starts.
  lemma RunningOther(a: Client, b: Client, q: nat, c: Choice)
    requires Running(a) && Tidy(b) && PoolMoves(a, b, q, c) && !a.core.procs[q].Resize?
    ensures Running(b)
  {
    RunningStepIsSafe(a, q, c);
    OnlyResizersMoveCapacity(a.core.pool, a.core.procs[q], SweepRuns(a.core.procs), c);
  }

  lemma OwnLoop(g: Pool, pc: ResizePc)
    requires ResizeStep(g, pc).Some? && ResizeOk(g, pc) && LoopOk(g, Resize(pc))
    requires g.capacity >= 1 && pc.target >= 1 && !g.closed
    ensures var l := ResizeStep(g, pc).value; LoopOk(l.pool, l.pc) && l.pool.capacity >= 1
  {
  }

  // SetCapacity moves on to a capacity above zero.
  lemma RunningHolder(a: Client, b: Client, q: nat, c: Choice)
    requires Running(a) && Nonzero(a) && Tidy(b) && PoolMoves(a, b, q, c) && a.holder == Some(q)
    ensures Running(b)
  {
    RunningStepIsSafe(a, q, c);
    OpenWhileCapacity(a.core);
    OwnLoop(a.core.pool, a.core.procs[q].resize);
  }

  lemma EntererMoves(g: Pool, pc: ResizePc)
    requires ResizeStep(g, pc).Some? && !InLoop(Resize(pc)) && pc.target == 0 && g.capacity >= 1
    ensures var l := ResizeStep(g, pc).value;
      || (l.pool == g && !InLoop(l.pc))
      || (l.pool == g.(capacity := 0) && l.pc == Resize(Drain(0, g.capacity)))
  {
  }

  // Close exchanges the capacity under a SetCapacity or under nobody.
  lemma Exchanged(a: Client, s: State, q: nat)
    requires Running(a) && q in a.closing && q < |a.core.procs| && a.core.procs[q].Resize?
    requires Books(s) && s.pool == a.core.pool.(capacity := 0)
    requires s.procs == a.core.procs[q := Resize(Drain(0, a.core.pool.capacity))]
    ensures Open(s, Looper(a), q)
  {
    assert CloserOk(a.core, q, a.closing[q]);
    RunningLoops(a);
    OpenWhileCapacity(a.core);
    if a.holder.Some? { LooperDue(a.core.pool, a.core.procs[a.holder.value]); }
  }

  lemma LooperDue(g: Pool, pc: Pc)
    requires pc.Resize? && ResizeOk(g, pc.resize) && LoopOk(g, pc) && g.capacity <= g.maxCap
    ensures g.capacity + Due(pc) <= g.maxCap
  {
  }

  lemma RunningCloser(a: Client, b: Client, q: nat, c: Choice)
    requires Running(a) && Tidy(b) && PoolMoves(a, b, q, c) && a.core.procs[q].Resize? && q in a.closing
    ensures Running(b) || Open(b.core, Looper(a), q)
  {
    assert CloserOk(a.core, q, a.closing[q]);
    RunningStepIsSafe(a, q, c);
    EntererMoves(a.core.pool, a.core.procs[q].resize);
    if b.core.pool.capacity == 0 { Exchanged(a, b.core, q); }
  }

  // Some Close has its loop entered, beside the SetCapacity p1 if that is in its own.
  ghost predicate Shutting(a: Client) {
    exists p1: nat, p2: nat :: Open(a.core, p1, p2)
  }

  lemma RunningNext(a: Client, b: Client)
    requires Running(a) && Nonzero(a) && ClientNext(a, b)
    ensures Tidy(b) && (Running(b) || Shutting(b))
  {
    NextTidy(a, b);
    var q, c := NextMoves(a, b);
    if Bookkeeping(a, b) {
    } else if !a.core.procs[q].Resize? {
      RunningOther(a, b, q, c);
    } else if a.holder == Some(q) {
      RunningHolder(a, b, q, c);
    } else {
      RunningCloser(a, b, q, c);
    }
  }

  // The overlap that can go wrong: SetCapacity has tokens left to take and could leave all
  // pinned ones behind, and somebody has a token or is about to fetch one.
  ghost predicate Collides(s: State, p1: nat, p2: nat) {
    && Overlap(s, p1, p2) && 1 <= Due(s.procs[p1]) && Sum(Pinned, s.procs) <= Due(s.procs[p1])
    && (Sum(Tokens, s.procs) >= 1 || HasFetch(s))
  }

  ghost predicate Collision(a: Client) {
    exists p1: nat, p2: nat :: Collides(a.core, p1, p2)
  }

  lemma HarmlessUnlessCollides(s: State, p1: nat, p2: nat)
    requires Open(s, p1, p2)
    ensures Collides(s, p1, p2) <==> !Harmless(s, p1)
  {
    OpenTokens(s, p1, p2);
    SumNonNegative(Tokens, s.procs);
  }

  ghost predicate SafeSomehow(s: State) {
    exists p1: nat, p2: nat :: Safe(s, p1, p2)
  }

  // In operation, or past a Close that nothing can go wrong with.
  ghost predicate Fine(a: Client) {
    Tidy(a) && (Running(a) || SafeSomehow(a.core))
  }

  lemma FineNext(a: Client, b: Client)
    requires Fine(a) && Nonzero(a) && ClientNext(a, b) && !Collision(b)
    ensures Fine(b)
  {
    if Running(a) {
      RunningNext(a, b);
      if p1: nat, p2: nat :| Open(b.core, p1, p2) {
        HarmlessUnlessCollides(b.core, p1, p2);
        assert Safe(b.core, p1, p2);
      }
    } else {
      NextTidy(a, b);
      var p1: nat, p2: nat :| Safe(a.core, p1, p2);
      SafeNext(a, b, p1, p2);
    }
  }

  // Up to the n-th state an overlap went wrong or SetCapacity took the pool to zero.
  ghost predicate RiskedBy(run: seq<Client>, n: nat)
    requires n < |run|
  {
    exists k :: 0 <= k <= n && (Collision(run[k]) || !Nonzero(run[k]))
  }

  lemma RiskGrows(run: seq<Client>, n: nat)
    requires 0 < n < |run| && !RiskedBy(run, n)
    ensures !RiskedBy(run, n - 1) && Nonzero(run[n - 1]) && !Collision(run[n])
  {
  }

  lemma {:induction false} FineRun(run: seq<Client>, n: nat)
    requires ClientRun(run) && n < |run| && !RiskedBy(run, n)
    ensures Fine(run[n])
  {
    if n == 0 {
      InitRuns(run[0]);
    } else {
      RiskGrows(run, n);
      FineRun(run, n - 1);
      PathStep(run, n);
      FineNext(run[n - 1], run[n]);
    }
  }

  lemma InitRuns(a: Client)
    requires ClientInit(a)
    ensures Running(a)
  {
    InitTidy(a);
  }

  // ------------------------------------------------------------- the dropped pointer

  // The first Close alone is in flight or has dropped the pointer.
  ghost predicate OneClose(a: Client) {
    && (a.closes == 0 ==> a.closing == map[] && !a.missing)
    && (a.closes == 1 ==> (forall i, j :: i in a.closing && j in a.closing ==> i == j))
    && (a.closes == 1 && a.missing ==> a.closing == map[])
  }

  lemma OneCloseNext(a: Client, b: Client)
    requires OneClose(a) && ClientNext(a, b)
    ensures OneClose(b) && a.closes <= b.closes
  {
  }

  lemma {:induction false} OneCloseRun(run: seq<Client>, n: nat)
    requires ClientRun(run) && n < |run|
    ensures OneClose(run[n])
  {
    if n > 0 {
      OneCloseRun(run, n - 1);
      PathStep(run, n);
      OneCloseNext(run[n - 1], run[n]);
    }
  }

  lemma OpenHasPointer(a: Client, p1: nat, p2: nat)
    requires Tidy(a) && Nonzero(a) && OneClose(a) && a.closes <= 1
    ensures Open(a.core, p1, p2) ==> p2 in a.closing && !a.missing
  {
    if Open(a.core, p1, p2) { assert a.core.procs[p2].Resize?; }
  }

  ghost predicate Ready(a: Client) {
    Fine(a) && Nonzero(a) && OneClose(a)
  }

  // With one Close the pointer is dropped after the last token is in.
  lemma MissingMeansShut(a: Client) returns (p1: nat)
    requires Ready(a) && a.closes <= 1 && a.missing
    ensures Shut(a.core, p1)
  {
    var q1: nat, q2: nat :| Safe(a.core, q1, q2);
    p1 := q1;
    OpenHasPointer(a, q1, q2);
  }

  lemma ShutHoldsNothing(s: State, p1: nat, q: nat)
    requires Shut(s, p1) && q < |s.procs|
    ensures !IsHolding(s.procs[q])
  {
    assert Weight(Tokens, s.procs[q]) == 0;
  }

  // A Put panics only on a dropped pointer.
  lemma PutPanicComes(a: Client, b: Client) returns (q: nat)
    requires ClientNext(a, b) && b.putPanic
    ensures a.missing && q < |a.core.procs| && IsHolding(a.core.procs[q]) && b.closes == a.closes
  {
    var p: nat, c :| ClientStep(a, p, c) == Some(b);
    q := p;
  }

  lemma PutFindsPool(a: Client, b: Client)
    requires Ready(a) && ClientNext(a, b) && b.closes <= 1
    ensures !b.putPanic
  {
    if b.putPanic {
      var q := PutPanicComes(a, b);
      var p1 := MissingMeansShut(a);
      ShutHoldsNothing(a.core, p1, q);
    }
  }

  lemma FineMeansNoFault(a: Client)
    requires Fine(a)
    ensures a.core.pool.fault == NoFault
  {
  }

  lemma ReadyBefore(run: seq<Client>, n: nat)
    requires ClientRun(run) && 0 < n < |run| && !RiskedBy(run, n)
    ensures Ready(run[n - 1]) && ClientNext(run[n - 1], run[n])
  {
    RiskGrows(run, n);
    FineRun(run, n - 1);
    OneCloseRun(run, n - 1);
    PathStep(run, n);
  }

  lemma StartsWithoutPanic(a: Client)
    requires ClientInit(a)
    ensures !a.putPanic
  {
  }

  lemma PutFindsPoolUntil(run: seq<Client>, n: nat)
    requires ClientRun(run) && n < |run| && !RiskedBy(run, n) && run[n].closes <= 1
    ensures !run[n].putPanic
  {
    if n == 0 {
      StartsWithoutPanic(run[0]);
    } else {
      ReadyBefore(run, n);
      PutFindsPool(run[n - 1], run[n]);
    }
  }

  lemma NoFaultUntil(run: seq<Client>, n: nat)
    requires ClientRun(run) && n < |run| && !RiskedBy(run, n)
    ensures run[n].core.pool.fault == NoFault
  {
    FineRun(run, n);
    FineMeansNoFault(run[n]);
  }

  /** The client panics only after a Close that overlaps a SetCapacity and meets the condition
      above, or after SetCapacity took the pool to zero: no send on the closed channel and no
      Put into a full one otherwise, whatever the number of Closes, and with one Close no Put
      that finds the pool's pointer dropped either. */
  lemma PanicsOnlyByCollision(run: seq<Client>, n: nat)
    requires ClientRun(run) && n < |run|
    ensures run[n].core.pool.fault != NoFault ==> RiskedBy(run, n)
    ensures run[n].putPanic && run[n].closes <= 1 ==> RiskedBy(run, n)
  {
    if !RiskedBy(run, n) {
      NoFaultUntil(run, n);
      if run[n].closes <= 1 { PutFindsPoolUntil(run, n); }
    }
  }

  // ------------------------------------------------------------- one overlap, no panic

  /** Some continuation without a further Close panics. */
  ghost predicate CanPanic(a: Client) {
    exists b :: Reaches(a, b) && b.closes == a.closes && Panicked(b)
  }

  ghost predicate AloneCloses(a: Client, p2: nat) {
    p2 in a.closing && !a.missing && forall i :: i in a.closing ==> i == p2
  }

  // One SetCapacity and one Close, both in their loops, and no other Close.
  ghost predicate Meets(a: Client, p1: nat, p2: nat) {
    Tidy(a) && !Panicked(a) && Overlap(a.core, p1, p2) && AloneCloses(a, p2)
  }

  lemma CloserStaysAlone(a: Client, b: Client, p2: nat)
    requires AloneCloses(a, p2) && a.closing[p2] == Emptying && ClientNext(a, b) && b.closes == a.closes
    requires p2 < |b.core.procs| && b.core.procs[p2] != Idle
    ensures AloneCloses(b, p2) && b.putPanic == a.putPanic
  {
  }

  // Nothing can go wrong any more, and the pointer is there as long as it is needed.
  ghost predicate Settled(a: Client, p1: nat, p2: nat) {
    Tidy(a) && !Panicked(a) && Safe(a.core, p1, p2) && (Shut(a.core, p1) || AloneCloses(a, p2))
  }

  lemma ShutPutsNothing(a: Client, b: Client, p1: nat)
    requires Shut(a.core, p1) && ClientNext(a, b)
    ensures !b.putPanic
  {
    if b.putPanic {
      var q := PutPanicComes(a, b);
      ShutHoldsNothing(a.core, p1, q);
    }
  }

  lemma SettledNext(a: Client, b: Client, p1: nat, p2: nat)
    requires Settled(a, p1, p2) && ClientNext(a, b) && b.closes == a.closes
    ensures Settled(b, p1, p2)
  {
    NextTidy(a, b);
    SafeNext(a, b, p1, p2);
    if Shut(a.core, p1) {
      ShutPutsNothing(a, b, p1);
      ShutNext(a, b, p1);
    } else if Open(b.core, p1, p2) {
      CloserTarget(a, p2);
      CloserStaysAlone(a, b, p2);
    } else {
      PointerThere(a, b);
    }
  }

  lemma PointerThere(a: Client, b: Client)
    requires ClientNext(a, b) && !a.missing
    ensures !b.putPanic
  {
  }

  lemma ShutNext(a: Client, b: Client, p1: nat)
    requires Tidy(a) && Shut(a.core, p1) && ClientNext(a, b)
    ensures Shut(b.core, p1)
  {
    var q, c := NextMoves(a, b);
    if !Bookkeeping(a, b) {
      if LoopAt(a.core.procs, p1) { LooperHolds(a, p1); }
      ShutStep(a.core, p1, q, c);
    }
  }

  lemma ClosesGrow(a: Client, b: Client)
    requires ClientNext(a, b)
    ensures a.closes <= b.closes
  {
  }

  /** A harmless overlap never panics, whatever is called next but another Close. */
  lemma HarmlessNeverPanics(a: Client, p1: nat, p2: nat)
    requires Meets(a, p1, p2) && Harmless(a.core, p1)
    ensures !CanPanic(a)
  {
    var inv := (x: Client) => x.closes > a.closes || (x.closes == a.closes && Settled(x, p1, p2));
    forall x, y | inv(x) && ClientNext(x, y) ensures inv(y) {
      ClosesGrow(x, y);
      if y.closes == a.closes { SettledNext(x, y, p1, p2); }
    }
    forall b | Reaches(a, b) && b.closes == a.closes ensures !Panicked(b) {
      ReachesKeeps(inv, a, b);
    }
  }

  // ---------------------------------------------------------------------- a panic

  // A process on its way to a send; the sweep is not running.
  predicate Carries(pc: Pc) {
    Weight(Tokens, pc) == 1 && !pc.Sweep?
  }

  lemma CarrierMoves(g: Pool, pc: Pc, sweepRuns: bool)
    requires Carries(pc) && g.closed && g.fault == NoFault
    ensures !pc.Resize? && pc != Idle && LocalStep(g, pc, sweepRuns, BackChoice(pc)).Some?
    ensures var l := LocalStep(g, pc, sweepRuns, BackChoice(pc)).value;
      l.pool.fault == NoFault ==> l.pool.closed && Carries(l.pc) && 0 <= HomingOf(l.pc) < HomingOf(pc)
    ensures PinnedBy(pc) == 0 ==> !IsHolding(pc)
  {
  }

  // With the mutex free a carrier ends in a send on the closed channel.
  lemma {:induction false} CarrierPanics(a: Client, q: nat) returns (b: Client)
    requires Tidy(a) && !Panicked(a) && a.core.pool.closed && a.holder == None && !a.missing
    requires q < |a.core.procs| && Carries(a.core.procs[q])
    ensures Reaches(a, b) && b.closes == a.closes && Panicked(b)
    decreases HomingOf(a.core.procs[q])
  {
    var c := BackChoice(a.core.procs[q]);
    CarrierMoves(a.core.pool, a.core.procs[q], SweepRuns(a.core.procs));
    FreeNext(a, q, c);
    var a1 := a.(core := Step(a.core, q, c).value);
    if a1.core.pool.fault != NoFault {
      b := a1;
      ReachesSelf(b);
    } else {
      NextTidy(a, a1);
      b := CarrierPanics(a1, q);
    }
    NextReaches(a, a1, b);
  }

  // Close takes what it needs from the queue and closes over a token in somebody's hands;
  // SetCapacity never waits on the closed channel, and then the mutex is free.
  lemma CloseThenPanic(a: Client, p1: nat, p2: nat, q: nat)
    requires Meets(a, p1, p2) && InDrain(a.core.procs[p1].resize) && Due(a.core.procs[p2]) <= |a.core.pool.queue|
    requires q < |a.core.procs| && Carries(a.core.procs[q])
    ensures CanPanic(a)
  {
    TidyResizes(a, p1);
    TidyResizes(a, p2);
    LooperHolds(a, p1);
    assert ResizeOk(a.core.pool, a.core.procs[p1].resize) && ResizeOk(a.core.pool, a.core.procs[p2].resize);
    var a1 := DrainEnds(a, p2);
    var a2 := DrainEnds(a1, p1);
    ReachesTrans(a, a1, a2);
    ReachesTidy(a, a2);
    var b := CarrierPanics(a2, q);
    ReachesTrans(a, a2, b);
  }

  lemma {:induction false} SomeProcess(m: Measure, procs: seq<Pc>) returns (q: nat)
    requires Sum(m, procs) > 0
    ensures q < |procs| && Weight(m, procs[q]) > 0
  {
    if Weight(m, procs[0]) > 0 { q := 0; } else { q := SomeProcess(m, procs[1..]); q := q + 1; }
  }

  // If everybody but q has nothing to give back, tokens and pinned ones differ by q's.
  lemma {:induction false} OnlyUnpinned(procs: seq<Pc>, q: nat)
    requires q < |procs| && forall i :: 0 <= i < |procs| && i != q ==> DetourOf(procs[i]) == 0
    ensures Sum(Tokens, procs) <= Sum(Pinned, procs) + 1 - PinnedBy(procs[q])
  {
    SumUpdate(Tokens, procs, q, Idle);
    SumUpdate(Pinned, procs, q, Idle);
    AllPinned(procs[q := Idle]);
  }

  // SetCapacity has tokens left to take, and could leave all the pinned ones behind.
  ghost predicate Harmful(a: Client, p1: nat, p2: nat) {
    Meets(a, p1, p2) && Due(a.core.procs[p1]) >= 1 && Sum(Pinned, a.core.procs) <= Due(a.core.procs[p1])
  }

  // The process whose token is to be left: a pinned one if there is any.
  ghost predicate Chosen(s: State, q: nat) {
    q < |s.procs| && Carries(s.procs[q]) && (Sum(Pinned, s.procs) > 0 ==> PinnedBy(s.procs[q]) == 1)
  }

  // With too few tokens queued for Close, another process has one to give back.
  lemma AnotherGivesBack(a: Client, p1: nat, p2: nat, q: nat) returns (r: nat)
    requires Harmful(a, p1, p2) && Chosen(a.core, q) && |a.core.pool.queue| < Due(a.core.procs[p2])
    ensures r < |a.core.procs| && r != q && DetourOf(a.core.procs[r]) > 0
  {
    OpenTokens(a.core, p1, p2);
    PinnedAreTokens(a.core.procs);
    if i :| 0 <= i < |a.core.procs| && i != q && DetourOf(a.core.procs[i]) > 0 {
      r := i;
    } else {
      OnlyUnpinned(a.core.procs, q);
      assert false;
    }
  }

  // The token of process r goes one step towards the channel; the two stay where they are.
  lemma GiveBackNext(a: Client, p1: nat, p2: nat, r: nat) returns (b: Client)
    requires Tidy(a) && !Panicked(a) && Open(a.core, p1, p2) && r < |a.core.procs| && DetourOf(a.core.procs[r]) > 0
    ensures ClientNext(a, b) && Tidy(b) && !Panicked(b) && Open(b.core, p1, p2) && b == a.(core := b.core)
    ensures LoopAt(b.core.procs, p1) == LoopAt(a.core.procs, p1) && BackMoved(a.core.procs, b.core.procs, r)
  {
    var c := BackChoice(a.core.procs[r]);
    TokenInHand(a.core.procs[r]);
    TokensFit(a.core, p1, p2, r);
    BackStep(a.core.pool, a.core.procs[r], SweepRuns(a.core.procs));
    b := a.(core := Step(a.core, r, c).value);
    FreeNext(a, r, c);
    NextTidy(a, b);
    OtherStaysOpen(a.core, p1, p2, r, c);
  }

  lemma {:induction false} ChosenPanics(a: Client, p1: nat, p2: nat, q: nat)
    requires Harmful(a, p1, p2) && Chosen(a.core, q)
    ensures CanPanic(a)
    decreases Sum(Detour, a.core.procs)
  {
    if |a.core.pool.queue| < Due(a.core.procs[p2]) {
      var r := AnotherGivesBack(a, p1, p2, q);
      var a1 := GiveBackNext(a, p1, p2, r);
      BackSums(a.core.procs, a1.core.procs, r);
      ChosenPanics(a1, p1, p2, q);
      NextCanPanic(a, a1);
    } else {
      CloseThenPanic(a, p1, p2, q);
    }
  }

  lemma NextCanPanic(a: Client, a1: Client)
    requires ClientNext(a, a1) && a1.closes == a.closes && CanPanic(a1)
    ensures CanPanic(a)
  {
    var b :| Reaches(a1, b) && b.closes == a1.closes && Panicked(b);
    NextReaches(a, a1, b);
  }

  lemma TokenPanics(a: Client, p1: nat, p2: nat)
    requires Harmful(a, p1, p2) && Sum(Tokens, a.core.procs) >= 1
    ensures CanPanic(a)
  {
    PinnedAreTokens(a.core.procs);
    var q: nat;
    if Sum(Pinned, a.core.procs) > 0 {
      q := SomeProcess(Pinned, a.core.procs);
    } else {
      q := SomeProcess(Tokens, a.core.procs);
    }
    NoSweeps(a.core, q);
    ChosenPanics(a, p1, p2, q);
  }

  lemma FetchMoves(g: Pool, pc: Pc, sweepRuns: bool)
    requires Fetching(pc) && g.queue != []
    ensures LocalStep(g, pc, sweepRuns, Proceed) == Some(Local(g.(queue := g.queue[1..]), Get(Unwrap(g.queue[0]))))
  {
  }

  // A fetch takes a token, pinned or not.
  lemma FetchNext(a: Client, p1: nat, p2: nat, q: nat) returns (b: Client)
    requires Meets(a, p1, p2) && q < |a.core.procs| && Fetching(a.core.procs[q]) && a.core.pool.queue != []
    ensures ClientNext(a, b) && Meets(b, p1, p2) && b == a.(core := b.core) && b.core.procs[p1] == a.core.procs[p1]
    ensures b.core.procs == a.core.procs[q := Get(Unwrap(a.core.pool.queue[0]))]
  {
    FetchMoves(a.core.pool, a.core.procs[q], SweepRuns(a.core.procs));
    b := a.(core := Step(a.core, q, Proceed).value);
    FreeNext(a, q, Proceed);
    NextTidy(a, b);
    OtherStaysOpen(a.core, p1, p2, q, Proceed);
  }

  lemma FetchCounts(procs: seq<Pc>, q: nat, w: Wrapper)
    requires q < |procs| && Fetching(procs[q]) && Sum(Tokens, procs) == 0
    ensures Sum(Tokens, procs[q := Get(Unwrap(w))]) == 1 && Sum(Pinned, procs[q := Get(Unwrap(w))]) <= 1
  {
    PinnedAreTokens(procs);
    SumUpdate(Tokens, procs, q, Get(Unwrap(w)));
    SumUpdate(Pinned, procs, q, Get(Unwrap(w)));
  }

  lemma FetchPanics(a: Client, p1: nat, p2: nat)
    requires Harmful(a, p1, p2) && Sum(Tokens, a.core.procs) == 0 && HasFetch(a.core)
    ensures CanPanic(a)
  {
    OpenTokens(a.core, p1, p2);
    assert Owed(a.core.procs[p1]) == 0;
    var q :| 0 <= q < |a.core.procs| && Fetching(a.core.procs[q]);
    var a1 := FetchNext(a, p1, p2, q);
    FetchCounts(a.core.procs, q, a.core.pool.queue[0]);
    TokenPanics(a1, p1, p2);
    NextCanPanic(a, a1);
  }

  /** A Close that overlaps a SetCapacity can end in a panic if and only if SetCapacity still
      has tokens to take out, no more tokens are pinned than that, and somebody holds a token
      or is about to fetch one. */
  lemma OverlapPanicsIff(a: Client, p1: nat, p2: nat)
    requires Meets(a, p1, p2)
    ensures CanPanic(a) <==> Collides(a.core, p1, p2)
  {
    HarmlessUnlessCollides(a.core, p1, p2);
    if Harmless(a.core, p1) {
      HarmlessNeverPanics(a, p1, p2);
    } else if Sum(Tokens, a.core.procs) >= 1 {
      TokenPanics(a, p1, p2);
    } else {
      SumNonNegative(Tokens, a.core.procs);
      FetchPanics(a, p1, p2);
    }
  }

  // Close takes the capacity to zero while nobody else moves.
  lemma CloseExchanges(a: Client, p2: nat) returns (b: Client)
    requires Running(a) && p2 in a.closing && a.closing[p2] == Emptying
    ensures Reaches(a, b) && Tidy(b) && !Panicked(b) && Open(b.core, Looper(a), p2)
    ensures p2 < |a.core.procs| && a.core.procs[p2].Resize? && b == a.(core := b.core)
    ensures b.core.procs == a.core.procs[p2 := Resize(Drain(0, a.core.pool.capacity))]
  {
    assert CloserOk(a.core, p2, Emptying);
    TidyResizes(a, p2);
    b := LoopBegins(a, p2);
    ReachesTidy(a, b);
    OpenWhileCapacity(a.core);
    ReachesBooks(a, b);
    Exchanged(a, b.core, p2);
  }

  /** Every SetCapacity in its loop meets a Close that had the mutex before and exchanges the
      capacity now. */
  lemma OverlapArises(a: Client, p1: nat, p2: nat) returns (b: Client)
    requires Running(a) && a.holder == Some(p1) && InLoop(a.core.procs[p1])
    requires AloneCloses(a, p2) && a.closing[p2] == Emptying
    ensures Reaches(a, b) && Meets(b, p1, p2) && b.closes == a.closes
    ensures p2 < |a.core.procs| && b.core.procs == a.core.procs[p2 := Resize(Drain(0, a.core.pool.capacity))]
  {
    b := CloseExchanges(a, p2);
  }
}
