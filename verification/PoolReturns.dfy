/** When the connection pool's SetCapacity and Close can return.

SetCapacity resizes with the mutex, Close without it; but the clients need the mutex to give
their connections back, and Close needs it once more to drop the pool's pointer.
 */
module PoolReturns {
  import opened Common
  import opened ResourcePool
  import opened ResourcePoolSafety
  import opened ResourcePoolRuns
  import opened ConnectionPool
  import opened PoolProgress
  import opened PoolShutdown
  import opened PoolPhases

  /** Some continuation lets process p's Close return. */
  ghost predicate CanFinish(a: Client, p: nat) {
    exists b :: Reaches(a, b) && p !in b.closing && !Panicked(b)
  }

  // The tokens that the Close in its loop, or else the next Close, has to take out.
  function Wanted(a: Client): int {
    a.core.pool.capacity + Sum(ToDrain, a.core.procs) - DueAt(a.core.procs, Looper(a))
  }

  // SetCapacity is in its loop, to zero or above, and the channel is open.
  ghost predicate LoopsToZero(a: Client) {
    !a.core.pool.closed && LoopAt(a.core.procs, Looper(a)) && a.core.procs[Looper(a)].resize.target == 0
  }

  ghost predicate LoopsAbove(a: Client) {
    !a.core.pool.closed && LoopAt(a.core.procs, Looper(a)) && a.core.procs[Looper(a)].resize.target >= 1
  }

  // SetCapacity in its loop beside a Close waits for ever: more tokens are pinned than it has
  // to take and than Close has to take; or it takes the pool to zero, and some are pinned.
  ghost predicate Jammed(a: Client) {
    var pinned := Sum(Pinned, a.core.procs);
    || (LoopsAbove(a) && pinned > DueAt(a.core.procs, Looper(a)) && pinned > Wanted(a))
    || (LoopsToZero(a) && pinned > 0)
  }

  // A sweep that can only end in a send on the closed channel.
  predicate Caught(pc: Pc) {
    pc.Sweep? && !(pc.sweep.Scan? && pc.sweep.left <= 0)
  }

  ghost predicate SweepCaught(s: State) {
    s.pool.closed && exists i :: 0 <= i < |s.procs| && Caught(s.procs[i])
  }

  // A Close that has yet to stop the sweep waits for one that cannot end.
  ghost predicate SweepBlocks(a: Client, p: nat) {
    p in a.closing && a.closing[p] == Entered && SweepCaught(a.core)
  }

  // Another Close has dropped the pointer, and p's drains tokens whose Put would panic.
  ghost predicate PointerBlocks(a: Client, p: nat) {
    && a.missing && !a.core.pool.closed && p < |a.core.procs| && InLoop(a.core.procs[p])
    && Sum(Pinned, a.core.procs) > 0
  }

  // What a Close waits for in vain.
  ghost predicate Blocked(a: Client, p: nat) {
    Jammed(a) || SweepBlocks(a, p) || PointerBlocks(a, p)
  }

  // ------------------------------------------------------------- what is wanted

  lemma WantedRunning(a: Client)
    requires Running(a)
    ensures Wanted(a) == a.core.pool.capacity
  {
    RunningLoops(a);
    OneMoves(a.core.procs, Looper(a));
  }

  lemma WantedOpen(a: Client, p1: nat, q: nat)
    requires Open(a.core, p1, q) && (LoopAt(a.core.procs, p1) ==> Looper(a) == p1)
    requires LoopAt(a.core.procs, Looper(a)) ==> Looper(a) == p1
    ensures Wanted(a) == Due(a.core.procs[q])
  {
    OnlyTwoMove(a.core.procs, p1, q, a.core.pool.maxCap);
    NoDueOutside(a.core.procs, p1);
    NoDueOutside(a.core.procs, Looper(a));
  }

  lemma NoDueOutside(procs: seq<Pc>, p: nat)
    ensures !LoopAt(procs, p) ==> DueAt(procs, p) == 0
  {
  }

  // In a pool that a Close drains, the SetCapacity in its loop is the holder of the mutex.
  lemma OpenedLooper(a: Client, p1: nat, q: nat)
    requires Tidy(a) && Opened(a, p1, q)
    ensures LoopAt(a.core.procs, p1) ==> a.holder == Some(p1) && Looper(a) == p1
    ensures LoopAt(a.core.procs, Looper(a)) ==> Looper(a) == p1
    ensures Wanted(a) == Due(a.core.procs[q])
  {
    if LoopAt(a.core.procs, p1) { LooperHolds(a, p1); }
    assert LoopAt(a.core.procs, Looper(a)) ==> a.holder.Some? && Looper(a) != q;
    WantedOpen(a, p1, q);
  }

  // -------------------------------------------------------------------- both wait

  // Process p1's SetCapacity holds the mutex in its loop, and waits for ever.
  ghost predicate Deadlocked(a: Client, p1: nat) {
    && Tidy(a) && !Panicked(a) && a.holder == Some(p1) && Jammed(a)
    && (Running(a) || OpenedFor(a, p1) || Zeroing(a))
  }

  ghost predicate OpenedFor(a: Client, p1: nat) {
    exists q: nat :: Opened(a, p1, q)
  }

  lemma JammedIsDeadlocked(a: Client)
    requires Phase(a) && Jammed(a)
    ensures a.holder.Some? && Deadlocked(a, a.holder.value)
  {
    if p1: nat, q: nat :| Opened(a, p1, q) { OpenedLooper(a, p1, q); }
  }

  // While the mutex is held no Close comes in or goes, and no Put starts.
  lemma HeldClosing(a: Client, b: Client)
    requires a.holder.Some? && ClientNext(a, b)
    ensures b.missing == a.missing && b.closing.Keys == a.closing.Keys && b.putPanic == a.putPanic
  {
  }

  // The two loops of an overlap both have a token to wait for.
  lemma BothHaveToWait(a: Client, p1: nat, q: nat)
    requires Tidy(a) && Opened(a, p1, q) && LoopAt(a.core.procs, p1) && Jammed(a)
    ensures Due(a.core.procs[p1]) >= 1 && Due(a.core.procs[q]) >= 1
    ensures Sum(Pinned, a.core.procs) > Due(a.core.procs[p1]) && Sum(Pinned, a.core.procs) > Due(a.core.procs[q])
  {
    OpenedLooper(a, p1, q);
    PinnedAreTokens(a.core.procs);
    OpenTokens(a.core, p1, q);
  }

  lemma OpenJamHolds(a: Client, p1: nat, q: nat)
    requires Tidy(a) && Opened(a, p1, q) && LoopAt(a.core.procs, p1)
    requires Sum(Pinned, a.core.procs) > Due(a.core.procs[p1]) && Sum(Pinned, a.core.procs) > Due(a.core.procs[q])
    ensures Jammed(a)
  {
    OpenedLooper(a, p1, q);
  }

  lemma OpenFirst(a: Client, b: Client, p1: nat, q: nat, c: Choice)
    requires Tidy(a) && Opened(a, p1, q) && LoopAt(a.core.procs, p1) && Jammed(a)
    requires Tidy(b) && q in b.closing && PoolMoves(a, b, p1, c)
    ensures Opened(b, p1, q) && Jammed(b)
  {
    BothHaveToWait(a, p1, q);
    FirstStaysOpen(a.core, p1, q, c);
    SumUpdate(Pinned, a.core.procs, p1, b.core.procs[p1]);
    OpenJamHolds(b, p1, q);
  }

  lemma OpenSecond(a: Client, b: Client, p1: nat, q: nat, c: Choice)
    requires Tidy(a) && Opened(a, p1, q) && LoopAt(a.core.procs, p1) && Jammed(a)
    requires Tidy(b) && q in b.closing && PoolMoves(a, b, q, c)
    ensures Opened(b, p1, q) && Jammed(b)
  {
    BothHaveToWait(a, p1, q);
    SecondStaysOpen(a.core, p1, q, c);
    SecondKeepsSums(a.core, b.core, q);
    OpenJamHolds(b, p1, q);
  }

  lemma OpenOther(a: Client, b: Client, p1: nat, q: nat, r: nat, c: Choice)
    requires Tidy(a) && Opened(a, p1, q) && LoopAt(a.core.procs, p1) && Jammed(a)
    requires Tidy(b) && q in b.closing && PoolMoves(a, b, r, c) && r != p1 && r != q
    ensures Opened(b, p1, q) && Jammed(b)
  {
    BothHaveToWait(a, p1, q);
    OpenedLooper(a, p1, q);
    OtherStaysOpen(a.core, p1, q, r, c);
    OtherKeepsPinned(a.core, r, c);
    OpenJamHolds(b, p1, q);
  }

  lemma OpenJamNext(a: Client, b: Client, p1: nat, q: nat)
    requires Tidy(a) && Opened(a, p1, q) && LoopAt(a.core.procs, p1) && Jammed(a) && ClientNext(a, b)
    ensures Tidy(b) && Opened(b, p1, q) && Jammed(b)
  {
    NextTidy(a, b);
    CloserTarget(a, q);
    CloserStaysIn(a, b, q);
    var r, c := NextMoves(a, b);
    if Bookkeeping(a, b) {
    } else if r == p1 {
      OpenFirst(a, b, p1, q, c);
    } else if r == q {
      OpenSecond(a, b, p1, q, c);
    } else {
      OpenOther(a, b, p1, q, r, c);
    }
  }

  // ------------------------------------------------------------ ... before the exchange

  // In operation SetCapacity waits for a token, and its target is the capacity.
  lemma FirstHasToWait(a: Client, p1: nat)
    requires Running(a) && a.holder == Some(p1) && Jammed(a)
    ensures Due(a.core.procs[p1]) >= 1 && Resizer(a.core.procs[p1]) && Nonzero(a)
    ensures Sum(Pinned, a.core.procs) > Due(a.core.procs[p1]) && Sum(Pinned, a.core.procs) > a.core.pool.capacity
  {
    WantedRunning(a);
    RunningTokens(a);
    PinnedAreTokens(a.core.procs);
  }

  lemma RunningJamHolds(a: Client, p1: nat)
    requires Running(a) && a.holder == Some(p1) && Resizer(a.core.procs[p1])
    requires Sum(Pinned, a.core.procs) > Due(a.core.procs[p1]) && Sum(Pinned, a.core.procs) > a.core.pool.capacity
    ensures Jammed(a)
  {
    WantedRunning(a);
    RunningTokens(a);
  }

  // A loop of SetCapacity with tokens left to take goes on.
  lemma LoopGoesOn(g: Pool, pc: ResizePc)
    requires Resizer(Resize(pc)) && ResizeOk(g, pc) && ResizeStep(g, pc).Some? && Due(Resize(pc)) >= 1
    ensures var l := ResizeStep(g, pc).value;
      Resizer(l.pc) && Due(l.pc) <= Due(Resize(pc)) && l.pool.capacity == g.capacity
  {
  }

  lemma HolderGoesOn(s: State, s': State, p1: nat, c: Choice)
    requires Step(s, p1, c) == Some(s') && Resizer(s.procs[p1]) && Due(s.procs[p1]) >= 1
    requires ResizeOk(s.pool, s.procs[p1].resize)
    ensures Resizer(s'.procs[p1]) && Due(s'.procs[p1]) <= Due(s.procs[p1]) && s'.pool.capacity == s.pool.capacity
    ensures Sum(Pinned, s'.procs) == Sum(Pinned, s.procs)
  {
    LoopGoesOn(s.pool, s.procs[p1].resize);
    SumUpdate(Pinned, s.procs, p1, s'.procs[p1]);
  }

  lemma BeforeFirst(a: Client, b: Client, p1: nat, c: Choice)
    requires Running(a) && a.holder == Some(p1) && Jammed(a) && Tidy(b) && PoolMoves(a, b, p1, c) && ClientNext(a, b)
    ensures Running(b) && b.holder == Some(p1) && Jammed(b)
  {
    FirstHasToWait(a, p1);
    HolderGoesOn(a.core, b.core, p1, c);
    RunningHolder(a, b, p1, c);
    HolderStays(a, b, p1);
    RunningJamHolds(b, p1);
  }

  lemma BeforeOther(a: Client, b: Client, p1: nat, q: nat, c: Choice)
    requires Running(a) && a.holder == Some(p1) && Jammed(a) && Tidy(b) && PoolMoves(a, b, q, c) && ClientNext(a, b)
    requires q != p1 && !a.core.procs[q].Resize?
    ensures Running(b) && b.holder == Some(p1) && Jammed(b)
  {
    FirstHasToWait(a, p1);
    RunningOther(a, b, q, c);
    OnlyResizersMoveCapacity(a.core.pool, a.core.procs[q], SweepRuns(a.core.procs), c);
    OtherKeepsPinned(a.core, q, c);
    HolderStays(a, b, p1);
    RunningJamHolds(b, p1);
  }

  // A Close moves towards the exchange of the capacity, or makes it.
  lemma CloserGoesOn(a: Client, b: Client, q: nat, c: Choice)
    requires Running(a) && q in a.closing && PoolMoves(a, b, q, c) && a.core.procs[q].Resize?
    ensures b.core.procs == a.core.procs[q := b.core.procs[q]] && Sum(Pinned, b.core.procs) == Sum(Pinned, a.core.procs)
    ensures b.core.pool.capacity == a.core.pool.capacity ||
            (b.core.pool.capacity == 0 && Due(b.core.procs[q]) == a.core.pool.capacity)
  {
    assert CloserOk(a.core, q, a.closing[q]);
    EntererMoves(a.core.pool, a.core.procs[q].resize);
    SumUpdate(Pinned, a.core.procs, q, b.core.procs[q]);
  }

  lemma BeforeSecond(a: Client, b: Client, p1: nat, q: nat, c: Choice)
    requires Running(a) && a.holder == Some(p1) && Jammed(a) && Tidy(b) && PoolMoves(a, b, q, c) && ClientNext(a, b)
    requires q in a.closing && a.core.procs[q].Resize? && q in b.closing
    ensures b.holder == Some(p1) && Jammed(b) && (Running(b) || Opened(b, p1, q))
  {
    FirstHasToWait(a, p1);
    CloserGoesOn(a, b, q, c);
    RunningCloser(a, b, q, c);
    HolderStays(a, b, p1);
    if Running(b) { RunningJamHolds(b, p1); } else { OpenJamHolds(b, p1, q); }
  }

  lemma BeforeJamNext(a: Client, b: Client, p1: nat)
    requires Running(a) && a.holder == Some(p1) && Jammed(a) && Tidy(b) && ClientNext(a, b)
    ensures b.holder == Some(p1) && Jammed(b) && (Running(b) || OpenedFor(b, p1))
  {
    var q, c := NextMoves(a, b);
    if Bookkeeping(a, b) {
      FirstHasToWait(a, p1);
      RunningJamHolds(b, p1);
    } else if q == p1 {
      BeforeFirst(a, b, p1, c);
    } else if a.core.procs[q].Resize? {
      CloserTarget(a, q);
      CloserStaysIn(a, b, q);
      BeforeSecond(a, b, p1, q, c);
    } else {
      BeforeOther(a, b, p1, q, c);
    }
  }

  // ------------------------------------------------------------- ... and SetCapacity(0)

  lemma ZeroJamNext(a: Client, b: Client)
    requires Zeroing(a) && Sum(Pinned, a.core.procs) > 0 && ClientNext(a, b) && !Panicked(b)
    ensures Zeroing(b) && b.holder == a.holder && Sum(Pinned, b.core.procs) > 0
  {
    NextTidy(a, b);
    ZeroingTokens(a);
    PinnedAreTokens(a.core.procs);
    var q, c := NextMoves(a, b);
    if Bookkeeping(a, b) {
    } else if q == a.holder.value {
      ZeroingHolder(a, b, c);
    } else {
      ZeroingOther(a, b, q, c);
    }
  }

  lemma ZeroJams(a: Client)
    requires Zeroing(a)
    ensures Jammed(a) <==> Sum(Pinned, a.core.procs) > 0
  {
  }

  // The pool inside does not panic while a SetCapacity is jammed.
  lemma JamDoesNotPanic(a: Client, b: Client, p1: nat)
    requires Deadlocked(a, p1) && ClientNext(a, b)
    ensures !Panicked(b)
  {
    HeldClosing(a, b);
    var q, c := NextMoves(a, b);
    if Bookkeeping(a, b) {
    } else if Running(a) {
      RunningStepIsSafe(a, q, c);
    } else if Zeroing(a) {
      ZeroingStepIsSafe(a, q, c);
    } else {
      var r: nat :| Opened(a, p1, r);
      OpenKeepsBooks(a.core, p1, r, q, c);
    }
  }

  lemma DeadlockedNext(a: Client, b: Client, p1: nat)
    requires Deadlocked(a, p1) && ClientNext(a, b)
    ensures Deadlocked(b, p1)
  {
    NextTidy(a, b);
    JamDoesNotPanic(a, b, p1);
    if Running(a) {
      BeforeJamNext(a, b, p1);
    } else if Zeroing(a) {
      ZeroJams(a);
      ZeroJamNext(a, b);
      ZeroJams(b);
    } else {
      var q: nat :| Opened(a, p1, q);
      OpenedLooper(a, p1, q);
      OpenJamNext(a, b, p1, q);
      OpenedLooper(b, p1, q);
      assert Opened(b, p1, q);
    }
  }

  /** Once jammed, SetCapacity and every Close wait for ever: no run lets any of them return. */
  lemma JamNeverEnds(a: Client, b: Client, p1: nat)
    requires Deadlocked(a, p1) && Reaches(a, b)
    ensures b.holder == Some(p1) && b.closing.Keys == a.closing.Keys && Jammed(b)
  {
    var inv := (x: Client) => Deadlocked(x, p1) && x.closing.Keys == a.closing.Keys;
    forall x, y | inv(x) && ClientNext(x, y) ensures inv(y) {
      DeadlockedNext(x, y, p1);
      HeldClosing(x, y);
    }
    ReachesKeeps(inv, a, b);
  }

  // ----------------------------------------------------------- other ways to be blocked

  lemma CaughtMoves(g: Pool, pc: Pc, sweepRuns: bool, c: Choice)
    requires Caught(pc) && g.closed && LocalStep(g, pc, sweepRuns, c).Some?
    ensures Caught(LocalStep(g, pc, sweepRuns, c).value.pc)
  {
  }

  lemma SweepStaysCaught(s: State, p: nat, c: Choice)
    requires SweepCaught(s) && Step(s, p, c).Some?
    ensures SweepCaught(Step(s, p, c).value)
  {
    var i :| 0 <= i < |s.procs| && Caught(s.procs[i]);
    LocalMonotone(s.pool, s.procs[p], SweepRuns(s.procs), c);
    if i == p { CaughtMoves(s.pool, s.procs[p], SweepRuns(s.procs), c); }
    assert Caught(Step(s, p, c).value.procs[i]);
  }

  lemma EnteredStays(a: Client, b: Client, p: nat)
    requires Tidy(a) && p in a.closing && a.closing[p] == Entered && SweepRuns(a.core.procs) && ClientNext(a, b)
    ensures p in b.closing && b.closing[p] == Entered
  {
    assert CloserOk(a.core, p, Entered);
  }

  lemma SweepBlocksNext(a: Client, b: Client, p: nat)
    requires Tidy(a) && SweepBlocks(a, p) && ClientNext(a, b)
    ensures Tidy(b) && SweepBlocks(b, p)
  {
    NextTidy(a, b);
    assert SweepRuns(a.core.procs);
    EnteredStays(a, b, p);
    var q, c := NextMoves(a, b);
    if !Bookkeeping(a, b) { SweepStaysCaught(a.core, q, c); }
  }

  lemma SweepBlocksForEver(a: Client, b: Client, p: nat)
    requires Tidy(a) && SweepBlocks(a, p) && Reaches(a, b)
    ensures p in b.closing
  {
    var inv := (x: Client) => Tidy(x) && SweepBlocks(x, p);
    forall x, y | inv(x) && ClientNext(x, y) ensures inv(y) { SweepBlocksNext(x, y, p); }
    ReachesKeeps(inv, a, b);
  }

  // p drains tokens of which some are pinned, and the pointer is gone.
  ghost predicate Pointless(a: Client, p1: nat, p: nat) {
    Tidy(a) && Opened(a, p1, p) && a.missing && a.holder == None && Sum(Pinned, a.core.procs) > 0
  }

  lemma PointlessWaits(a: Client, p1: nat, p: nat)
    requires Pointless(a, p1, p)
    ensures Due(a.core.procs[p]) >= 1 && !LoopAt(a.core.procs, p1)
  {
    OpenedLooper(a, p1, p);
    NoDueOutside(a.core.procs, p1);
    OpenTokens(a.core, p1, p);
    PinnedAreTokens(a.core.procs);
  }

  lemma MissingStays(a: Client, b: Client)
    requires a.missing && ClientNext(a, b)
    ensures b.missing
  {
  }

  lemma PointlessNext(a: Client, b: Client, p1: nat, p: nat)
    requires Pointless(a, p1, p) && ClientNext(a, b)
    ensures Pointless(b, p1, p)
  {
    NextTidy(a, b);
    PointlessWaits(a, p1, p);
    CloserTarget(a, p);
    CloserStaysIn(a, b, p);
    MissingStays(a, b);
    MissingFree(a, b);
    var q, c := NextMoves(a, b);
    if Bookkeeping(a, b) {
    } else if q == p {
      SecondStaysOpen(a.core, p1, p, c);
      SecondKeepsSums(a.core, b.core, p);
    } else {
      OtherStaysOpen(a.core, p1, p, q, c);
      OtherKeepsPinned(a.core, q, c);
    }
  }

  lemma PointerBlocksForEver(a: Client, b: Client, p: nat)
    requires Phase(a) && p in a.closing && PointerBlocks(a, p) && Reaches(a, b)
    ensures p in b.closing
  {
    var p1 := PointerBlocksOpened(a, p);
    var inv := (x: Client) => Pointless(x, p1, p);
    forall x, y | inv(x) && ClientNext(x, y) ensures inv(y) { PointlessNext(x, y, p1, p); }
    ReachesKeeps(inv, a, b);
  }

  // A Close in its loop on the open channel is the one that took the capacity to zero.
  lemma LoopingCloseIsOpened(a: Client, p: nat) returns (p1: nat)
    requires Phase(a) && p in a.closing && p < |a.core.procs| && InLoop(a.core.procs[p]) && !a.core.pool.closed
    ensures Opened(a, p1, p)
  {
    CloserTarget(a, p);
    assert CloserOk(a.core, p, a.closing[p]);
    var r: nat, q: nat :| Opened(a, r, q);
    OpenedLooper(a, r, q);
    p1 := r;
  }

  lemma PointerBlocksOpened(a: Client, p: nat) returns (p1: nat)
    requires Phase(a) && p in a.closing && PointerBlocks(a, p)
    ensures Pointless(a, p1, p)
  {
    p1 := LoopingCloseIsOpened(a, p);
  }

  lemma BlockedForEver(a: Client, p: nat)
    requires Phase(a) && p in a.closing && Blocked(a, p)
    ensures !CanFinish(a, p)
  {
    if Jammed(a) { JammedIsDeadlocked(a); }
    forall b | Reaches(a, b) ensures p in b.closing {
      if Jammed(a) {
        JamNeverEnds(a, b, a.holder.value);
        assert p in b.closing.Keys;
      } else if SweepBlocks(a, p) {
        SweepBlocksForEver(a, b, p);
      } else {
        PointerBlocksForEver(a, b, p);
      }
    }
  }

  // ------------------------------------------------------------------- with the mutex free

  // The last step of Close.
  lemma CloseDrops(a: Client, p: nat)
    requires !Panicked(a) && p < |a.core.procs| && a.holder == None && p in a.closing && a.closing[p] == Emptied
    ensures CanFinish(a, p)
  {
    var b := a.(closing := a.closing - {p}, missing := true);
    assert ClientStep(a, p, Proceed) == Some(b);
    ReachesSelf(a);
    ReachesNext(a, a, b);
  }

  lemma FinishLater(a: Client, a1: Client, p: nat)
    requires Reaches(a, a1) && CanFinish(a1, p)
    ensures CanFinish(a, p)
  {
    var b :| Reaches(a1, b) && p !in b.closing && !Panicked(b);
    ReachesTrans(a, a1, b);
  }

  // Close drains, nobody holds the mutex, and SetCapacity is out of its loop.
  ghost predicate Unhindered(a: Client, p1: nat, q: nat) {
    && Tidy(a) && !Panicked(a) && Opened(a, p1, q) && !a.missing
    && a.holder == None && !LoopAt(a.core.procs, p1)
  }

  lemma HomeStep(g: Pool, pc: Pc, sweepRuns: bool)
    requires HomingOf(pc) > 0 && !g.closed && |g.queue| < g.maxCap
    ensures !pc.Resize? && pc != Idle && LocalStep(g, pc, sweepRuns, BackChoice(pc)).Some?
    ensures 0 <= HomingOf(LocalStep(g, pc, sweepRuns, BackChoice(pc)).value.pc) < HomingOf(pc)
  {
  }

  lemma HomingIsToken(pc: Pc)
    ensures !pc.Sweep? && !pc.Resize? ==> Weight(Tokens, pc) == Bit(HomingOf(pc) > 0)
  {
  }

  ghost predicate HomeMoved(procs: seq<Pc>, procs': seq<Pc>, r: nat) {
    && r < |procs| == |procs'| && procs' == procs[r := procs'[r]]
    && 0 <= HomingOf(procs'[r]) < HomingOf(procs[r])
  }

  lemma HomeSums(procs: seq<Pc>, procs': seq<Pc>, r: nat)
    requires HomeMoved(procs, procs', r)
    ensures 0 <= Sum(Homing, procs') < Sum(Homing, procs)
  {
    SumUpdate(Homing, procs, r, procs'[r]);
    SumNonNegative(Homing, procs');
  }

  lemma HomeStarts(a: Client, p1: nat, q: nat, r: nat)
    requires Unhindered(a, p1, q) && r < |a.core.procs| && HomingOf(a.core.procs[r]) > 0
    ensures Step(a.core, r, BackChoice(a.core.procs[r])).Some? && a.core.procs[r] != Idle && !a.core.procs[r].Resize?
    ensures HomeMoved(a.core.procs, Step(a.core, r, BackChoice(a.core.procs[r])).value.procs, r)
  {
    TokensFit(a.core, p1, q, r);
    NoSweeps(a.core, r);
    HomingIsToken(a.core.procs[r]);
    HomeStep(a.core.pool, a.core.procs[r], SweepRuns(a.core.procs));
  }

  lemma HomeNext(a: Client, p1: nat, q: nat, r: nat) returns (b: Client)
    requires Unhindered(a, p1, q) && r < |a.core.procs| && HomingOf(a.core.procs[r]) > 0
    ensures ClientNext(a, b) && Unhindered(b, p1, q) && HomeMoved(a.core.procs, b.core.procs, r)
  {
    var c := BackChoice(a.core.procs[r]);
    HomeStarts(a, p1, q, r);
    b := a.(core := Step(a.core, r, c).value);
    FreeNext(a, r, c);
    NextTidy(a, b);
    OtherStaysOpen(a.core, p1, q, r, c);
  }

  // All tokens come home.
  lemma {:induction false} AllComeHome(a: Client, p1: nat, q: nat) returns (b: Client)
    requires Unhindered(a, p1, q)
    ensures Reaches(a, b) && Unhindered(b, p1, q) && Sum(Tokens, b.core.procs) == 0
    decreases Sum(Homing, a.core.procs)
  {
    if r :| 0 <= r < |a.core.procs| && HomingOf(a.core.procs[r]) > 0 {
      var a1 := HomeNext(a, p1, q, r);
      HomeSums(a.core.procs, a1.core.procs, r);
      b := AllComeHome(a1, p1, q);
      NextReaches(a, a1, b);
    } else {
      b := a;
      ReachesSelf(a);
      forall i | 0 <= i < |a.core.procs| ensures Weight(Tokens, a.core.procs[i]) == 0 {
        NoSweeps(a.core, i);
        HomingIsToken(a.core.procs[i]);
      }
      SumZero(Tokens, a.core.procs);
    }
  }

  // All tokens are in the channel: Close takes them, closes it and drops the pointer.
  lemma LastDrain(a: Client, p1: nat, q: nat)
    requires Tidy(a) && !Panicked(a) && Opened(a, p1, q) && a.holder == None && Sum(Tokens, a.core.procs) == 0
    ensures CanFinish(a, q)
  {
    OpenedLooper(a, p1, q);
    NoDueOutside(a.core.procs, p1);
    OpenTokens(a.core, p1, q);
    TidyResizes(a, q);
    assert ResizeOk(a.core.pool, a.core.procs[q].resize);
    var b := DrainEnds(a, q);
    CloseDrops(b, q);
    FinishLater(a, b, q);
  }

  lemma OpenIsRoomy(a: Client, p1: nat, q: nat)
    requires Tidy(a) && !Panicked(a) && Open(a.core, p1, q)
    ensures Roomy(a)
  {
    OpenTokens(a.core, p1, q);
  }

  lemma OpenedCarries(a: Client, b: Client, p1: nat, q: nat)
    requires Tidy(a) && Opened(a, p1, q) && Roomy(b) && SameResizers(a, b)
    ensures Opened(b, p1, q) && LoopAt(b.core.procs, p1) == LoopAt(a.core.procs, p1)
  {
  }

  lemma DrainingFinishes(a: Client, p1: nat, q: nat)
    requires Tidy(a) && !Panicked(a) && Opened(a, p1, q) && a.holder == None
    requires a.missing ==> Sum(Pinned, a.core.procs) == 0
    ensures CanFinish(a, q)
  {
    OpenedLooper(a, p1, q);
    if a.missing {
      OpenIsRoomy(a, p1, q);
      var b := AllGoBack(a);
      OpenedCarries(a, b, p1, q);
      LastDrain(b, p1, q);
      FinishLater(a, b, q);
    } else {
      var b := AllComeHome(a, p1, q);
      LastDrain(b, p1, q);
      FinishLater(a, b, q);
    }
  }

  // p's Close is at work on a pool taken to zero, and the mutex is free.
  ghost predicate Freed(a: Client, p: nat) {
    && Tidy(a) && !Panicked(a) && a.holder == None && a.core.pool.capacity == 0
    && p in a.closing && a.closing[p] != Entered
    && (p < |a.core.procs| && InLoop(a.core.procs[p]) ==> exists p1: nat :: Opened(a, p1, p))
  }

  lemma FreedFinishes(a: Client, p: nat)
    requires Freed(a, p) && (a.missing && InLoop(a.core.procs[p]) ==> Sum(Pinned, a.core.procs) == 0)
    ensures CanFinish(a, p)
  {
    assert CloserOk(a.core, p, a.closing[p]);
    if a.closing[p] == Emptied {
      CloseDrops(a, p);
    } else if InLoop(a.core.procs[p]) {
      var p1: nat :| Opened(a, p1, p);
      DrainingFinishes(a, p1, p);
    } else {
      TidyResizes(a, p);
      var b := EntererEnds(a, p);
      CloseDrops(b, p);
      FinishLater(a, b, p);
    }
  }

  // ------------------------------------------------------------------- freeing the mutex

  // SetCapacity has returned; the Closes at work are still at work or back from the pool.
  ghost predicate LetGo(a: Client, b: Client) {
    && Reaches(a, b) && !Panicked(b) && b.holder == None && b.missing == a.missing && b.core.pool.capacity == 0
    && forall i :: i in a.closing && a.closing[i] != Entered ==> i in b.closing && b.closing[i] != Entered
  }

  lemma EndedLetsGo(a: Client, b: Client, h: nat)
    requires Tidy(a) && !Panicked(a) && a.holder == Some(h) && a.core.pool.capacity == 0 && Ended(a, h, b)
    ensures LetGo(a, b)
  {
  }

  lemma LetGoLater(a: Client, a1: Client, b: Client)
    requires Reaches(a, a1) && a1.missing == a.missing && LetGo(a1, b)
    requires forall i :: i in a.closing && a.closing[i] != Entered ==> i in a1.closing && a1.closing[i] != Entered
    ensures LetGo(a, b)
  {
    ReachesTrans(a, a1, b);
  }

  // Before its exchange SetCapacity finds the pool gone.
  lemma EntererLeaves(a: Client) returns (b: Client)
    requires Tidy(a) && !Panicked(a) && a.holder.Some? && a.core.pool.capacity == 0
    requires !InLoop(a.core.procs[a.holder.value])
    ensures LetGo(a, b)
  {
    TidyResizes(a, a.holder.value);
    b := EntererEnds(a, a.holder.value);
  }

  lemma FillerLeaves(a: Client, p1: nat, q: nat) returns (b: Client)
    requires Tidy(a) && !Panicked(a) && Opened(a, p1, q) && a.holder == Some(p1) && LoopAt(a.core.procs, p1)
    requires InFill(a.core.procs[p1].resize)
    ensures LetGo(a, b)
  {
    OpenTokens(a.core, p1, q);
    SumNonNegative(Tokens, a.core.procs);
    TidyResizes(a, p1);
    assert ResizeOk(a.core.pool, a.core.procs[p1].resize);
    b := FillEnds(a, p1);
    EndedLetsGo(a, b, p1);
  }

  // Enough is left for SetCapacity: it goes first.
  lemma DrainerLeaves(a: Client, p1: nat) returns (b: Client)
    requires Tidy(a) && !Panicked(a) && a.holder == Some(p1) && a.core.pool.capacity == 0
    requires InDrain(a.core.procs[p1].resize)
    requires (a.core.pool.closed && a.core.procs[p1].resize.target > 0) ||
             (!a.core.pool.closed && Due(a.core.procs[p1]) <= |a.core.pool.queue|)
    ensures LetGo(a, b)
  {
    TidyResizes(a, p1);
    assert ResizeOk(a.core.pool, a.core.procs[p1].resize);
    b := DrainEnds(a, p1);
    EndedLetsGo(a, b, p1);
  }

  // Enough is left for Close: it goes first, and SetCapacity drains the closed channel.
  lemma CloserLeaves(a: Client, p1: nat, q: nat) returns (b: Client)
    requires Tidy(a) && !Panicked(a) && Opened(a, p1, q) && a.holder == Some(p1) && LoopAt(a.core.procs, p1)
    requires InDrain(a.core.procs[p1].resize) && Due(a.core.procs[q]) <= |a.core.pool.queue|
    ensures LetGo(a, b)
  {
    TidyResizes(a, q);
    assert ResizeOk(a.core.pool, a.core.procs[q].resize);
    var a1 := DrainEnds(a, q);
    ReachesTidy(a, a1);
    b := DrainerLeaves(a1, p1);
    LetGoLater(a, a1, b);
  }

  lemma OverlapLetsGo(a: Client, p1: nat, q: nat) returns (b: Client)
    requires Tidy(a) && !Panicked(a) && Opened(a, p1, q) && LoopAt(a.core.procs, p1) && !Jammed(a)
    ensures LetGo(a, b)
  {
    OpenedLooper(a, p1, q);
    if InFill(a.core.procs[p1].resize) {
      b := FillerLeaves(a, p1, q);
    } else {
      OpenIsRoomy(a, p1, q);
      var a1 := AllGoBack(a);
      OpenedCarries(a, a1, p1, q);
      OpenTokens(a1.core, p1, q);
      if Sum(Pinned, a.core.procs) <= Due(a.core.procs[p1]) {
        b := CloserLeaves(a1, p1, q);
      } else {
        b := DrainerLeaves(a1, p1);
      }
      LetGoLater(a, a1, b);
    }
  }

  lemma ZeroingCarries(a: Client, b: Client)
    requires Zeroing(a) && Roomy(b) && SameResizers(a, b)
    ensures Zeroing(b)
  {
  }

  lemma ZeroingLetsGo(a: Client) returns (b: Client)
    requires Zeroing(a) && !Jammed(a)
    ensures LetGo(a, b)
  {
    ZeroJams(a);
    ZeroingTokens(a);
    var a1 := AllGoBack(a);
    ZeroingCarries(a, a1);
    ZeroingTokens(a1);
    PinnedAreTokens(a.core.procs);
    b := DrainerLeaves(a1, a.holder.value);
    LetGoLater(a, a1, b);
  }

  // A fill loop with nothing left to put in ends also on the closed channel.
  lemma FilledLeaves(a: Client, p1: nat) returns (b: Client)
    requires Tidy(a) && !Panicked(a) && a.holder == Some(p1) && a.core.pool.capacity == 0
    requires InLoop(a.core.procs[p1]) && InFill(a.core.procs[p1].resize) && Owed(a.core.procs[p1]) == 0
    ensures LetGo(a, b)
  {
    TidyResizes(a, p1);
    var g, pc := a.core.pool, a.core.procs[p1].resize;
    if pc.Fill? {
      ResizerNext(a, p1, g, Idle);
      EndedNow(a, p1, g);
      b := Placing(a, p1, g, Idle);
    } else {
      var g1, pc1 := g.(available := g.available + 1), Resize(Fill(pc.target, 0));
      var a1 := Placing(a, p1, g1, pc1);
      ResizerNext(a, p1, g1, pc1);
      ResizerNext(a1, p1, g1, Idle);
      EndedNow(a1, p1, g1);
      b := Placing(a1, p1, g1, Idle);
      EndedLater(a, p1, g1, pc1, b);
    }
    EndedLetsGo(a, b, p1);
  }

  lemma ClosedLetsGo(a: Client) returns (b: Client)
    requires ClosedDown(a) && a.holder.Some?
    ensures LetGo(a, b)
  {
    var h := a.holder.value;
    if !InLoop(a.core.procs[h]) {
      b := EntererLeaves(a);
    } else if InFill(a.core.procs[h].resize) {
      b := FilledLeaves(a, h);
    } else {
      b := DrainerLeaves(a, h);
    }
  }

  /** On a pool taken to zero SetCapacity can give the mutex back unless it is jammed. */
  lemma MutexFrees(a: Client) returns (b: Client)
    requires Phase(a) && a.holder.Some? && a.core.pool.capacity == 0 && !Jammed(a)
    ensures LetGo(a, b)
  {
    if Zeroing(a) {
      b := ZeroingLetsGo(a);
    } else if ClosedDown(a) {
      b := ClosedLetsGo(a);
    } else {
      var p1: nat, q: nat :| Opened(a, p1, q);
      OpenedLooper(a, p1, q);
      if LoopAt(a.core.procs, p1) {
        b := OverlapLetsGo(a, p1, q);
      } else {
        b := EntererLeaves(a);
      }
    }
  }

  // ---------------------------------------------------------------- a Close gets to work

  lemma {:induction false} SumSame(m: Measure, procs: seq<Pc>, procs': seq<Pc>)
    requires |procs'| == |procs| && forall i :: 0 <= i < |procs| ==> Weight(m, procs'[i]) == Weight(m, procs[i])
    ensures Sum(m, procs') == Sum(m, procs)
  {
    if procs != [] { SumSame(m, procs[1..], procs'[1..]); }
  }

  // Nothing that a jam depends on has changed.
  ghost predicate SameJam(a: Client, b: Client) {
    && b.holder == a.holder && b.missing == a.missing && |b.core.procs| == |a.core.procs|
    && b.core.pool.capacity == a.core.pool.capacity && b.core.pool.closed == a.core.pool.closed
    && Sum(Pinned, b.core.procs) == Sum(Pinned, a.core.procs)
    && Sum(ToDrain, b.core.procs) == Sum(ToDrain, a.core.procs)
    && (Looper(a) < |a.core.procs| ==> b.core.procs[Looper(a)] == a.core.procs[Looper(a)])
  }

  lemma JamSame(a: Client, b: Client)
    requires SameJam(a, b)
    ensures Jammed(b) <==> Jammed(a)
  {
  }

  lemma DrainSame(a: Client, b: Client)
    requires SameResizers(a, b)
    ensures Sum(ToDrain, b.core.procs) == Sum(ToDrain, a.core.procs)
  {
    SumSame(ToDrain, a.core.procs, b.core.procs);
  }

  ghost predicate NoneCaught(procs: seq<Pc>) {
    forall i :: 0 <= i < |procs| ==> !Caught(procs[i])
  }

  lemma IdleSweepNext(a: Client, q: nat) returns (b: Client)
    requires Tidy(a) && !Panicked(a) && q < |a.core.procs| && a.core.procs[q].Sweep? && !Caught(a.core.procs[q])
    ensures ClientNext(a, b) && Tidy(b) && b == a.(core := State(a.core.pool, a.core.procs[q := Idle]))
  {
    FreeNext(a, q, Proceed);
    b := a.(core := Step(a.core, q, Proceed).value);
    NextTidy(a, b);
  }

  lemma FewerSweeps(procs: seq<Pc>, q: nat)
    requires q < |procs| && procs[q].Sweep?
    ensures 0 <= Sum(Sweeping, procs[q := Idle]) < Sum(Sweeping, procs)
  {
    SumUpdate(Sweeping, procs, q, Idle);
    SumNonNegative(Sweeping, procs[q := Idle]);
  }

  // Sweeps that find nothing left to do end also on the closed channel.
  lemma {:induction false} IdleSweepsEnd(a: Client) returns (b: Client)
    requires Tidy(a) && !Panicked(a) && NoneCaught(a.core.procs)
    ensures Reaches(a, b) && Tidy(b) && b == a.(core := b.core) && b.core.pool == a.core.pool
    ensures !SweepRuns(b.core.procs)
    decreases Sum(Sweeping, a.core.procs)
  {
    if q :| 0 <= q < |a.core.procs| && a.core.procs[q].Sweep? {
      var a1 := IdleSweepNext(a, q);
      FewerSweeps(a.core.procs, q);
      b := IdleSweepsEnd(a1);
      NextReaches(a, a1, b);
    } else {
      b := a;
      ReachesSelf(a);
    }
  }

  // p's Close is past the sweep.
  ghost predicate Begun(a: Client, b: Client, p: nat) {
    && Reaches(a, b) && Phase(b) && b.holder == a.holder && b.missing == a.missing
    && p in b.closing && b.closing[p] == Emptying && p < |b.core.procs| && !InLoop(b.core.procs[p])
  }

  lemma BeginsClosed(a: Client, p: nat) returns (b: Client)
    requires Phase(a) && p in a.closing && a.closing[p] == Entered && a.core.pool.closed && !SweepCaught(a.core)
    ensures Begun(a, b, p) && b.core.pool.closed
  {
    var a1 := IdleSweepsEnd(a);
    b := CloseBegins(a1, p);
    ReachesNext(a, a1, b);
    ReachesPhase(a, b);
  }

  lemma PhaseIsRoomy(a: Client)
    requires Phase(a) && !a.core.pool.closed
    ensures Roomy(a)
  {
    if Running(a) {
      RunningIsRoomy(a);
    } else if Zeroing(a) {
      ZeroingTokens(a);
    } else {
      var p1: nat, q: nat :| Opened(a, p1, q);
      OpenIsRoomy(a, p1, q);
    }
  }

  lemma BeginsOpen(a: Client, p: nat) returns (b: Client)
    requires Phase(a) && p in a.closing && a.closing[p] == Entered && !a.core.pool.closed
    ensures Begun(a, b, p) && SameJam(a, b)
  {
    PhaseIsRoomy(a);
    var a1 := SweepsEnd(a);
    DrainSame(a, a1);
    b := CloseBegins(a1, p);
    SumUpdate(Pinned, a1.core.procs, p, Resize(Load(0)));
    SumUpdate(ToDrain, a1.core.procs, p, Resize(Load(0)));
    ReachesNext(a, a1, b);
    ReachesPhase(a, b);
  }

  // ... and it or another has taken the capacity to zero.
  ghost predicate Prepared(a: Client, b: Client, p: nat) {
    && Reaches(a, b) && Phase(b) && b.holder == a.holder && b.missing == a.missing && b.core.pool.capacity == 0
    && p in b.closing && b.closing[p] != Entered
    && (Jammed(b) ==> Jammed(a)) && (PointerBlocks(b, p) ==> PointerBlocks(a, p))
  }

  lemma JamKept(a: Client, b: Client, p: nat)
    requires Running(a) && p in a.closing && p < |a.core.procs| && Tidy(b) && Opened(b, Looper(a), p)
    requires b.holder == a.holder && b.core.procs == a.core.procs[p := Resize(Drain(0, a.core.pool.capacity))]
    requires !InLoop(a.core.procs[p])
    ensures Jammed(b) ==> Jammed(a)
  {
    SumUpdate(Pinned, a.core.procs, p, b.core.procs[p]);
    WantedRunning(a);
    OpenedLooper(b, Looper(a), p);
    OpenWhileCapacity(a.core);
  }

  lemma ExchangesThen(a: Client, p: nat) returns (b: Client)
    requires Phase(a) && Running(a) && p in a.closing && a.closing[p] == Emptying
    ensures Prepared(a, b, p)
  {
    b := CloseExchanges(a, p);
    assert CloserOk(a.core, p, Emptying);
    assert Opened(b, Looper(a), p);
    JamKept(a, b, p);
    ReachesPhase(a, b);
  }

  lemma PreparesBegun(a: Client, p: nat) returns (b: Client)
    requires Phase(a) && p in a.closing && a.closing[p] != Entered
    ensures Prepared(a, b, p)
  {
    assert CloserOk(a.core, p, a.closing[p]);
    if Running(a) {
      b := ExchangesThen(a, p);
    } else {
      b := a;
      ReachesSelf(a);
      ZeroUnlessRunning(a);
    }
  }

  lemma ZeroUnlessRunning(a: Client)
    requires Phase(a)
    ensures Running(a) || a.core.pool.capacity == 0
  {
  }

  lemma PreparedLater(a: Client, a1: Client, b: Client, p: nat)
    requires Begun(a, a1, p) && Prepared(a1, b, p) && (Jammed(a1) ==> Jammed(a))
    ensures Prepared(a, b, p)
  {
    ReachesTrans(a, a1, b);
  }

  /** A Close gets past the sweep, unless that is caught on the closed channel, and the capacity
      to zero. */
  lemma Prepares(a: Client, p: nat) returns (b: Client)
    requires Phase(a) && p in a.closing && !SweepBlocks(a, p)
    ensures Prepared(a, b, p)
  {
    if a.closing[p] != Entered {
      b := PreparesBegun(a, p);
    } else {
      var a1: Client;
      if a.core.pool.closed {
        a1 := BeginsClosed(a, p);
      } else {
        a1 := BeginsOpen(a, p);
        JamSame(a, a1);
      }
      b := PreparesBegun(a1, p);
      PreparedLater(a, a1, b, p);
    }
  }

  // ------------------------------------------------------------------------ the results

  lemma PhaseIsFreed(a: Client, p: nat)
    requires Phase(a) && a.holder == None && a.core.pool.capacity == 0 && p in a.closing && a.closing[p] != Entered
    ensures Freed(a, p) && p < |a.core.procs| && (InLoop(a.core.procs[p]) ==> !a.core.pool.closed)
  {
    assert CloserOk(a.core, p, a.closing[p]);
    if p < |a.core.procs| && InLoop(a.core.procs[p]) && !a.core.pool.closed {
      var p1 := LoopingCloseIsOpened(a, p);
    }
  }

  lemma NotBlockedFinishes(a: Client, p: nat)
    requires Phase(a) && p in a.closing && !Blocked(a, p)
    ensures CanFinish(a, p)
  {
    var b := Prepares(a, p);
    var d := b;
    if b.holder == None {
      ReachesSelf(b);
    } else {
      d := MutexFrees(b);
      ReachesPhase(b, d);
    }
    PhaseIsFreed(d, p);
    PinnedAreTokens(d.core.procs);
    FreedFinishes(d, p);
    FinishLater(b, d, p);
    FinishLater(a, b, p);
  }

  /** In every state that a run of the client reaches, a Close in flight can return if and only
      if it is not blocked: SetCapacity is not jammed in its loop, no sweep is caught on a
      channel that closed before Close stopped it, and no pinned tokens are left to drain after
      another Close dropped the pointer. */
  lemma CloseReturnsIff(a: Client, p: nat)
    requires Arrived(a) && !Panicked(a) && p in a.closing
    ensures CanFinish(a, p) <==> !Blocked(a, p)
  {
    ArrivedPhase(a);
    if Blocked(a, p) { BlockedForEver(a, p); } else { NotBlockedFinishes(a, p); }
  }

  /** A SetCapacity beside a Close, wherever it stands, can return if and only if it is not
      jammed. */
  lemma BesideCloseReturnsIff(a: Client, p: nat, i: nat)
    requires Phase(a) && a.holder == Some(p) && i in a.closing
    ensures CanReturn(a, p) <==> !Jammed(a)
  {
    if Jammed(a) {
      JammedIsDeadlocked(a);
      forall b | Reaches(a, b) ensures b.holder == Some(p) { JamNeverEnds(a, b, p); }
    } else if a.core.pool.capacity == 0 {
      var b := MutexFrees(a);
    } else {
      ZeroUnlessRunning(a);
      OpenUnlessClosed(a);
      var a1 := Prepares(a, i);
      var b := MutexFrees(a1);
      ReachesTrans(a, a1, b);
    }
  }

  // ---------------------------------------------------------- SetCapacity and no Close

  lemma NoCloseNoOpen(a: Client)
    requires Phase(a) && a.closing == map[]
    ensures Running(a) || Zeroing(a) || ClosedDown(a)
  {
  }

  lemma LoneInv(a: Client, p: nat)
    requires (Running(a) || Zeroing(a)) && a.holder == Some(p) && a.closing == map[]
    ensures SerialInv(a.core) && Serial(a.core)
  {
    OnlyOneResizes(a, p);
    if Running(a) { RunningLoops(a); }
  }

  // More pinned than the target leaves means that the pool is being shrunk to it.
  lemma LoneShrinks(a: Client, p: nat)
    requires (Running(a) || Zeroing(a)) && a.holder == Some(p)
    requires Sum(Pinned, a.core.procs) > a.core.procs[p].resize.target
    ensures Shrinking(a.core, p, a.core.procs[p].resize.target)
  {
    PinnedAreTokens(a.core.procs);
    if Running(a) {
      RunningTokens(a);
      NoDueOutside(a.core.procs, p);
    }
  }

  lemma LoneWaits(a: Client, p: nat)
    requires (Running(a) || Zeroing(a)) && a.holder == Some(p) && a.closing == map[]
    requires Sum(Pinned, a.core.procs) > a.core.procs[p].resize.target
    ensures !CanReturn(a, p)
  {
    var target := a.core.procs[p].resize.target;
    LoneInv(a, p);
    LoneShrinks(a, p);
    assert Waiting(a, p, target);
    forall b | Reaches(a, b) ensures b.holder == Some(p) { ShrinkNeverReturns(a, b, p, target); }
  }

  lemma EndedReturns(a: Client, b: Client, p: nat)
    requires Tidy(a) && !Panicked(a) && a.holder == Some(p) && Ended(a, p, b)
    ensures CanReturn(a, p)
  {
  }

  lemma ReturnLater(a: Client, a1: Client, p: nat)
    requires Reaches(a, a1) && CanReturn(a1, p)
    ensures CanReturn(a, p)
  {
    var b :| Reaches(a1, b) && b.holder != Some(p) && !Panicked(b);
    ReachesTrans(a, a1, b);
  }

  // SetCapacity finds that nothing is to be done.
  lemma NothingToDo(a: Client, p: nat)
    requires Tidy(a) && !Panicked(a) && a.holder == Some(p) && !InLoop(a.core.procs[p])
    requires a.core.pool.capacity == a.core.procs[p].resize.target
    ensures CanReturn(a, p)
  {
    TidyResizes(a, p);
    var g, target := a.core.pool, a.core.procs[p].resize.target;
    if a.core.procs[p].resize.Load? {
      ResizerNext(a, p, g, Idle);
      EndedNow(a, p, g);
      EndedReturns(a, Placing(a, p, g, Idle), p);
    } else {
      assert ResizeOk(g, a.core.procs[p].resize);
      var a1 := Placing(a, p, g, Resize(Load(target)));
      ResizerNext(a, p, g, Resize(Load(target)));
      ResizerNext(a1, p, g, Idle);
      EndedNow(a1, p, g);
      EndedLater(a, p, g, Resize(Load(target)), Placing(a1, p, g, Idle));
      EndedReturns(a, Placing(a1, p, g, Idle), p);
    }
  }

  // A loop with all tokens that are not pinned in the channel, and no more pinned than stay.
  lemma LoopReturns(a: Client, p: nat)
    requires Tidy(a) && !Panicked(a) && a.holder == Some(p) && InLoop(a.core.procs[p]) && !a.core.pool.closed
    requires Due(a.core.procs[p]) <= |a.core.pool.queue|
    requires |a.core.pool.queue| + Owed(a.core.procs[p]) <= a.core.pool.maxCap
    ensures CanReturn(a, p)
  {
    TidyResizes(a, p);
    assert ResizeOk(a.core.pool, a.core.procs[p].resize);
    if InFill(a.core.procs[p].resize) {
      var b := FillEnds(a, p);
      EndedReturns(a, b, p);
    } else {
      var b := DrainEnds(a, p);
      EndedReturns(a, b, p);
    }
  }

  lemma StartReturns(a: Client, p: nat)
    requires Running(a) && a.holder == Some(p) && !InLoop(a.core.procs[p])
    requires Sum(Tokens, a.core.procs) <= a.core.procs[p].resize.target
    ensures CanReturn(a, p)
  {
    RunningTokens(a);
    NoDueOutside(a.core.procs, p);
    SumNonNegative(Tokens, a.core.procs);
    TidyResizes(a, p);
    assert ResizeOk(a.core.pool, a.core.procs[p].resize);
    if a.core.pool.capacity == a.core.procs[p].resize.target {
      NothingToDo(a, p);
    } else {
      var b := LoopBegins(a, p);
      ReachesTidy(a, b);
      LoopReturns(b, p);
      ReturnLater(a, b, p);
    }
  }

  lemma SettledReturns(a: Client, p: nat)
    requires (Running(a) || Zeroing(a)) && a.holder == Some(p)
    requires Sum(Tokens, a.core.procs) <= a.core.procs[p].resize.target
    ensures CanReturn(a, p)
  {
    if !InLoop(a.core.procs[p]) {
      StartReturns(a, p);
    } else {
      SumNonNegative(Tokens, a.core.procs);
      if Running(a) { RunningTokens(a); } else { ZeroingTokens(a); }
      LoopReturns(a, p);
    }
  }

  lemma LoneReturns(a: Client, p: nat)
    requires Phase(a) && (Running(a) || Zeroing(a)) && a.holder == Some(p)
    requires Sum(Pinned, a.core.procs) <= a.core.procs[p].resize.target
    ensures CanReturn(a, p)
  {
    OpenUnlessClosed(a);
    PhaseIsRoomy(a);
    var b := AllGoBack(a);
    if Running(a) { RunningCarries(a, b); } else { ZeroingCarries(a, b); }
    SettledReturns(b, p);
    ReturnLater(a, b, p);
  }

  lemma OpenUnlessClosed(a: Client)
    requires Running(a) || Zeroing(a)
    ensures !a.core.pool.closed
  {
    if Running(a) { OpenWhileCapacity(a.core); }
  }

  lemma LoneReturnsIff(a: Client, p: nat)
    requires Phase(a) && a.holder == Some(p) && a.closing == map[]
    ensures CanReturn(a, p) <==> a.core.pool.closed || Sum(Pinned, a.core.procs) <= a.core.procs[p].resize.target
  {
    NoCloseNoOpen(a);
    if ClosedDown(a) {
      var b := ClosedLetsGo(a);
    } else {
      OpenUnlessClosed(a);
      if Sum(Pinned, a.core.procs) > a.core.procs[p].resize.target { LoneWaits(a, p); } else { LoneReturns(a, p); }
    }
  }

  /** In every state that a run of the client reaches, a SetCapacity, wherever it stands, can
      return if and only if: with no Close in flight, no more tokens are pinned than its target
      leaves, or the channel is closed already; beside a Close, it is not jammed in its loop.
      Otherwise it waits for Puts that wait for its mutex. */
  lemma SetCapacityReturnsIff(a: Client, p: nat)
    requires Arrived(a) && !Panicked(a) && a.holder == Some(p)
    ensures p < |a.core.procs| && a.core.procs[p].Resize?
    ensures CanReturn(a, p) <==>
            if a.closing == map[] then
              a.core.pool.closed || Sum(Pinned, a.core.procs) <= a.core.procs[p].resize.target
            else !Jammed(a)
  {
    ArrivedPhase(a);
    if a.closing == map[] {
      LoneReturnsIff(a, p);
    } else {
      var i :| i in a.closing;
      BesideCloseReturnsIff(a, p, i);
    }
  }
}
