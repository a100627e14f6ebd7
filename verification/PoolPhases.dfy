/** The phases a client's pool goes through in every run: in operation, drained by a Close,
    drained by SetCapacity(0), closed. */
module PoolPhases {
  import opened Common
  import opened ResourcePool
  import opened ResourcePoolSafety
  import opened ResourcePoolRuns
  import opened ConnectionPool
  import opened PoolProgress
  import opened PoolShutdown

  // The Close of process q drains, beside the SetCapacity p1 if that is still in its loop.
  ghost predicate Opened(a: Client, p1: nat, q: nat) {
    Open(a.core, p1, q) && q in a.closing
  }

  ghost predicate CloseDrains(a: Client) {
    exists p1: nat, q: nat :: Opened(a, p1, q)
  }

  // SetCapacity(0) drains and holds the mutex; nobody else is in a loop.
  ghost predicate Zeroing(a: Client) {
    && Tidy(a) && Books(a.core) && !Panicked(a) && !a.core.pool.closed && a.core.pool.capacity == 0
    && a.holder.Some? && Closer(a.core.procs[a.holder.value]) && OnlyLoops(a.core.procs, a.holder.value)
  }

  // The channel is closed; a SetCapacity above zero may still be in its loop, with nothing to
  // put in.
  ghost predicate ClosedDown(a: Client) {
    && Tidy(a) && !Panicked(a) && a.core.pool.closed && a.core.pool.capacity == 0
    && OnlyLoops(a.core.procs, Looper(a))
    && (LoopAt(a.core.procs, Looper(a)) ==> LoopsOnClosed(a.core.procs[Looper(a)]))
  }

  predicate LoopsOnClosed(pc: Pc) {
    Resizer(pc) && Owed(pc) == 0
  }

  /** Where a client's pool stands that has not panicked. */
  ghost predicate Phase(a: Client) {
    && Tidy(a) && !Panicked(a) && (a.missing ==> a.holder == None)
    && (Running(a) || CloseDrains(a) || Zeroing(a) || ClosedDown(a))
  }

  // ------------------------------------------------------------------- in operation

  lemma HolderStays(a: Client, b: Client, p: nat)
    requires a.holder == Some(p) && p !in a.closing && ClientNext(a, b)
    requires p < |b.core.procs| && b.core.procs[p] != Idle
    ensures b.holder == Some(p)
  {
  }

  lemma CloserStaysIn(a: Client, b: Client, q: nat)
    requires q in a.closing && a.closing[q] == Emptying && ClientNext(a, b)
    ensures q in b.closing
  {
  }

  // SetCapacity(0) moves, and may take the capacity to zero.
  lemma RunningZero(a: Client, b: Client, q: nat, c: Choice)
    requires Running(a) && Tidy(b) && PoolMoves(a, b, q, c) && a.holder == Some(q) && a.core.procs[q].resize.target == 0
    requires ClientNext(a, b)
    ensures Running(b) || Zeroing(b)
  {
    RunningStepIsSafe(a, q, c);
    OpenWhileCapacity(a.core);
    EntererMoves(a.core.pool, a.core.procs[q].resize);
    HolderStays(a, b, q);
    RunningLoops(a);
  }

  lemma RunningOn(a: Client, b: Client)
    requires Running(a) && ClientNext(a, b)
    ensures Tidy(b) && (Running(b) || CloseDrains(b) || Zeroing(b))
  {
    NextTidy(a, b);
    var q, c := NextMoves(a, b);
    if Bookkeeping(a, b) {
    } else if !a.core.procs[q].Resize? {
      RunningOther(a, b, q, c);
    } else if a.holder != Some(q) {
      RunningCloser(a, b, q, c);
      CloserTarget(a, q);
      CloserStaysIn(a, b, q);
      if Open(b.core, Looper(a), q) { assert Opened(b, Looper(a), q); }
    } else if a.core.procs[q].resize.target == 0 {
      RunningZero(a, b, q, c);
    } else {
      RunningHolder(a, b, q, c);
    }
  }

  // ------------------------------------------------------------------ a Close drains

  lemma NothingOwed(s: State, p1: nat, q: nat)
    requires Open(s, p1, q) && s.procs[q] == Resize(Drain(0, 0))
    ensures OwedAt(s.procs, p1) == 0
  {
    OpenTokens(s, p1, q);
    SumNonNegative(Tokens, s.procs);
  }

  // The last token is in and Close closes the channel.
  lemma CloseCloses(a: Client, b: Client, p1: nat, q: nat, c: Choice)
    requires Tidy(a) && Opened(a, p1, q) && PoolMoves(a, b, q, c) && a.core.procs[q] == Resize(Drain(0, 0))
    requires Tidy(b) && !Panicked(b)
    ensures ClosedDown(b)
  {
    NothingOwed(a.core, p1, q);
    assert b.core == State(a.core.pool.(closed := true), a.core.procs[q := Idle]);
    if LoopAt(b.core.procs, p1) { LooperHolds(b, p1); }
  }

  lemma OpenedStep(a: Client, b: Client, p1: nat, q: nat, r: nat, c: Choice)
    requires Tidy(a) && Opened(a, p1, q) && PoolMoves(a, b, r, c) && (r != q || a.core.procs[q] != Resize(Drain(0, 0)))
    ensures Open(b.core, p1, q)
  {
    if r == q {
      SecondStaysOpen(a.core, p1, q, c);
    } else if InLoop(a.core.procs[r]) {
      FirstStaysOpen(a.core, p1, q, c);
    } else {
      OtherStaysOpen(a.core, p1, q, r, c);
    }
  }

  lemma OpenedOn(a: Client, b: Client, p1: nat, q: nat)
    requires Tidy(a) && Opened(a, p1, q) && ClientNext(a, b) && !Panicked(b)
    ensures Tidy(b) && (Opened(b, p1, q) || ClosedDown(b))
  {
    NextTidy(a, b);
    CloserTarget(a, q);
    CloserStaysIn(a, b, q);
    var r, c := NextMoves(a, b);
    if Bookkeeping(a, b) {
    } else if r == q && a.core.procs[q] == Resize(Drain(0, 0)) {
      CloseCloses(a, b, p1, q, c);
    } else {
      OpenedStep(a, b, p1, q, r, c);
    }
  }

  // ------------------------------------------------------------- SetCapacity(0) drains

  lemma ZeroingTokens(a: Client)
    requires Zeroing(a)
    ensures Roomy(a)
    ensures |a.core.pool.queue| + Sum(Tokens, a.core.procs) == Due(a.core.procs[a.holder.value])
  {
    var h := a.holder.value;
    OneMoves(a.core.procs, h);
    assert ResizeOk(a.core.pool, a.core.procs[h].resize);
  }

  lemma ZeroingStepIsSafe(a: Client, q: nat, c: Choice)
    requires Zeroing(a) && Step(a.core, q, c).Some?
    ensures var s := Step(a.core, q, c).value; Books(s) && s.pool.fault == NoFault
  {
    ZeroingTokens(a);
    RoomFor(a, q);
    StepKeepsBooks(a.core, q, c);
    OpenStepIsSafe(a.core.pool, a.core.procs[q], SweepRuns(a.core.procs), c);
  }

  lemma ZeroingOther(a: Client, b: Client, q: nat, c: Choice)
    requires Zeroing(a) && Tidy(b) && !Panicked(b) && PoolMoves(a, b, q, c) && q != a.holder.value && ClientNext(a, b)
    ensures Zeroing(b) && b.holder == a.holder && Sum(Pinned, b.core.procs) >= Sum(Pinned, a.core.procs)
  {
    ZeroingStepIsSafe(a, q, c);
    OtherStaysOut(a.core.pool, a.core.procs[q], SweepRuns(a.core.procs), c);
    OtherKeepsPinned(a.core, q, c);
    HolderStays(a, b, a.holder.value);
  }

  lemma ZeroingHolder(a: Client, b: Client, c: Choice)
    requires Zeroing(a) && Tidy(b) && !Panicked(b) && PoolMoves(a, b, a.holder.value, c) && ClientNext(a, b)
    ensures if a.core.procs[a.holder.value] == Resize(Drain(0, 0)) then ClosedDown(b)
            else Zeroing(b) && b.holder == a.holder && Sum(Pinned, b.core.procs) == Sum(Pinned, a.core.procs)
  {
    var h := a.holder.value;
    ZeroingStepIsSafe(a, h, c);
    CloserMoves(a.core.pool, a.core.procs[h].resize);
    if a.core.procs[h] != Resize(Drain(0, 0)) {
      HolderStays(a, b, h);
      SumUpdate(Pinned, a.core.procs, h, b.core.procs[h]);
    }
  }

  lemma ZeroingOn(a: Client, b: Client)
    requires Zeroing(a) && ClientNext(a, b) && !Panicked(b)
    ensures Tidy(b) && (Zeroing(b) || ClosedDown(b))
  {
    NextTidy(a, b);
    var q, c := NextMoves(a, b);
    if Bookkeeping(a, b) {
    } else if q == a.holder.value {
      ZeroingHolder(a, b, c);
    } else {
      ZeroingOther(a, b, q, c);
    }
  }

  // ------------------------------------------------------------------------ closed

  lemma ClosedLoopMoves(g: Pool, pc: ResizePc)
    requires LoopsOnClosed(Resize(pc)) && ResizeOk(g, pc) && g.closed && ResizeStep(g, pc).Some?
    ensures var l := ResizeStep(g, pc).value;
      && l.pool.closed && l.pool.capacity == g.capacity && l.pool.fault == g.fault
      && (l.pc == Idle || LoopsOnClosed(l.pc))
  {
  }

  lemma ClosedOtherMoves(g: Pool, pc: Pc, sweepRuns: bool, c: Choice)
    requires LocalStep(g, pc, sweepRuns, c).Some? && !InLoop(pc) && g.closed && g.capacity == 0
    requires pc.Resize? ==> ResizeOk(g, pc.resize)
    ensures var l := LocalStep(g, pc, sweepRuns, c).value; l.pool.closed && l.pool.capacity == 0 && !InLoop(l.pc)
  {
  }

  lemma ClosedHolder(a: Client, b: Client, q: nat, c: Choice)
    requires ClosedDown(a) && Tidy(b) && !Panicked(b) && PoolMoves(a, b, q, c) && ClientNext(a, b)
    requires InLoop(a.core.procs[q])
    ensures ClosedDown(b)
  {
    ClosedLoopMoves(a.core.pool, a.core.procs[q].resize);
    if b.core.procs[q] != Idle { HolderStays(a, b, q); }
  }

  lemma ClosedOther(a: Client, b: Client, q: nat, c: Choice)
    requires ClosedDown(a) && Tidy(b) && !Panicked(b) && PoolMoves(a, b, q, c) && ClientNext(a, b)
    requires !InLoop(a.core.procs[q])
    ensures ClosedDown(b)
  {
    ClosedOtherMoves(a.core.pool, a.core.procs[q], SweepRuns(a.core.procs), c);
    if LoopAt(a.core.procs, Looper(a)) { HolderStays(a, b, Looper(a)); }
  }

  lemma ClosedOn(a: Client, b: Client)
    requires ClosedDown(a) && ClientNext(a, b) && !Panicked(b)
    ensures ClosedDown(b)
  {
    NextTidy(a, b);
    var q, c := NextMoves(a, b);
    if Bookkeeping(a, b) {
    } else if InLoop(a.core.procs[q]) {
      ClosedHolder(a, b, q, c);
    } else {
      ClosedOther(a, b, q, c);
    }
  }

  // --------------------------------------------------------------------- every run

  lemma MissingFree(a: Client, b: Client)
    requires (a.missing ==> a.holder == None) && ClientNext(a, b)
    ensures b.missing ==> b.holder == None
  {
  }

  lemma PhaseNext(a: Client, b: Client)
    requires Phase(a) && ClientNext(a, b) && !Panicked(b)
    ensures Phase(b)
  {
    MissingFree(a, b);
    if Running(a) {
      RunningOn(a, b);
    } else if Zeroing(a) {
      ZeroingOn(a, b);
    } else if ClosedDown(a) {
      ClosedOn(a, b);
    } else {
      var p1: nat, q: nat :| Opened(a, p1, q);
      OpenedOn(a, b, p1, q);
    }
  }

  lemma PanicEnds(a: Client, b: Client)
    ensures ClientNext(a, b) ==> !Panicked(a)
  {
  }

  lemma ReachesPhase(a: Client, b: Client)
    requires Phase(a) && Reaches(a, b) && !Panicked(b)
    ensures Phase(b)
  {
    forall x, y | (Panicked(x) || Phase(x)) && ClientNext(x, y) ensures Panicked(y) || Phase(y) {
      PanicEnds(x, y);
      if !Panicked(y) { PhaseNext(x, y); }
    }
    ReachesKeeps(x => Panicked(x) || Phase(x), a, b);
  }

  /** Every state that a run of the client reaches without a panic is in one of the phases. */
  lemma ArrivedPhase(a: Client)
    requires Arrived(a) && !Panicked(a)
    ensures Phase(a)
  {
    var z :| ClientInit(z) && Reaches(z, a);
    InitRuns(z);
    ReachesPhase(z, a);
  }
}
