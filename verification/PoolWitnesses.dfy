/** Runs of the client that go wrong: calls that wait for ever, and calls that panic. */
module PoolWitnesses {
  import opened Common
  import opened ResourcePool
  import opened ResourcePoolSafety
  import opened ResourcePoolRuns
  import opened ConnectionPool
  import opened PoolProgress
  import opened PoolShutdown
  import opened PoolPhases
  import opened PoolReturns

  // A run in which SetCapacity is never called.
  ghost predicate Unresized(run: seq<Client>) {
    ClientRun(run) && forall i :: 0 <= i < |run| ==> run[i].holder == None
  }

  ghost predicate FreeArrived(a: Client) {
    exists run :: Unresized(run) && run[|run| - 1] == a
  }

  ghost predicate Known(a: Client) {
    Arrived(a) && Tidy(a) && Books(a.core)
  }

  lemma FreeNextArrives(a: Client, p: nat, c: Choice, b: Client)
    requires FreeArrived(a) && ClientStep(a, p, c) == Some(b) && b.holder == None
    ensures FreeArrived(b)
  {
    var run :| Unresized(run) && run[|run| - 1] == a;
    var longer := run + [b];
    assert ClientNext(a, b);
    forall i | 0 < i < |longer| ensures ClientNext(longer[i - 1], longer[i]) {
      if i < |run| { PathStep(run, i); }
    }
    assert Unresized(longer) && longer[|longer| - 1] == b;
  }

  lemma FreeIsKnown(a: Client)
    requires FreeArrived(a) && !a.core.pool.closed
    ensures Known(a)
  {
    var run :| Unresized(run) && run[|run| - 1] == a;
    assert Leads(run, run[0], a);
    InitTidy(run[0]);
    ReachesTidy(run[0], a);
    ReachesBooks(run[0], a);
  }

  lemma ArrivesLater(a: Client, b: Client)
    requires Known(a) && Reaches(a, b)
    ensures Arrived(b) && Tidy(b)
  {
    var z :| ClientInit(z) && Reaches(z, a);
    ReachesTrans(z, a, b);
    ReachesTidy(a, b);
  }

  lemma Onward(a: Client, b: Client)
    requires Known(a) && Reaches(a, b) && !b.core.pool.closed
    ensures Known(b)
  {
    ArrivesLater(a, b);
    ReachesBooks(a, b);
  }

  lemma Steps(a: Client, p: nat, c: Choice, b: Client)
    requires Known(a) && ClientStep(a, p, c) == Some(b) && !b.core.pool.closed
    ensures Known(b)
  {
    assert ClientNext(a, b);
    ReachesSelf(a);
    ReachesNext(a, a, b);
    Onward(a, b);
  }

  // ------------------------------------------------------------------ Gets that go through

  // No SetCapacity is in flight; each Close that is has some phase.
  function Closings(g: Pool, procs: seq<Pc>, closing: map<nat, ClosePhase>, closes: nat): Client {
    Client(State(g, procs), None, closing, false, false, closes)
  }

  // No Close has been called either.
  function Plain(g: Pool, procs: seq<Pc>): Client {
    Closings(g, procs, map[], 0)
  }

  lemma FreshArrives(capacity: nat, maxCap: nat, n: nat)
    requires 0 < capacity <= maxCap
    ensures FreeArrived(Plain(Fresh(capacity, maxCap, n).pool, Repeat(Idle, n)))
  {
    var run := [Plain(Fresh(capacity, maxCap, n).pool, Repeat(Idle, n))];
    assert Unresized(run) && run[|run| - 1] == run[0];
  }

  lemma PlainMoves(g0: Pool, procs: seq<Pc>, p: nat, pc0: Pc, c: Choice, g: Pool, pc: Pc)
    requires p < |procs| && FreeArrived(Plain(g0, procs[p := pc0])) && g0.fault == NoFault && pc != Idle
    requires !pc0.Resize? && (c == CallGet || c == Proceed) && LocalStep(g0, pc0, false, c) == Some(Local(g, pc))
    ensures FreeArrived(Plain(g, procs[p := pc]))
  {
    var a, b := Plain(g0, procs[p := pc0]), Plain(g, procs[p := pc]);
    assert procs[p := pc0][p := pc] == procs[p := pc];
    assert Step(a.core, p, c) == Some(b.core);
    FreeNextArrives(a, p, c, b);
  }

  // The pool once a Get has made its resource, and once it has handed it out.
  function Made(g: Pool): Pool
    requires g.queue != []
  {
    g.(queue := g.queue[1..], nextId := g.nextId + 1, active := g.active + 1)
  }

  function HandedOut(g: Pool): Pool
    requires g.queue != []
  {
    Made(g).(available := g.available - 1, inUse := g.inUse + 1)
  }

  lemma GetFetches(g: Pool, procs: seq<Pc>, p: nat)
    requires p < |procs| && procs[p] == Idle && FreeArrived(Plain(g, procs)) && g.fault == NoFault
    requires g.queue != [] && g.queue[0] == Empty
    ensures FreeArrived(Plain(g.(queue := g.queue[1..]), procs[p := Get(Unwrap(Empty))]))
  {
    assert procs[p := Idle] == procs;
    PlainMoves(g, procs, p, Idle, CallGet, g, Get(Fetch(false)));
    PlainMoves(g, procs, p, Get(Fetch(false)), Proceed, g.(queue := g.queue[1..]), Get(Unwrap(Empty)));
  }

  lemma GetMakes(g: Pool, procs: seq<Pc>, p: nat)
    requires p < |procs| && procs[p] == Idle && FreeArrived(Plain(g, procs)) && g.fault == NoFault
    requires g.queue != [] && g.queue[0] == Empty
    ensures FreeArrived(Plain(Made(g), procs[p := Get(DropAvailable(g.nextId))]))
  {
    var g1 := g.(queue := g.queue[1..]);
    var g2 := g1.(nextId := g.nextId + 1);
    GetFetches(g, procs, p);
    PlainMoves(g1, procs, p, Get(Unwrap(Empty)), Proceed, g2, Get(BumpActive(g.nextId)));
    PlainMoves(g2, procs, p, Get(BumpActive(g.nextId)), Proceed, Made(g), Get(DropAvailable(g.nextId)));
  }

  lemma GetHandsOut(g: Pool, procs: seq<Pc>, p: nat)
    requires p < |procs| && procs[p] == Idle && FreeArrived(Plain(g, procs)) && g.fault == NoFault
    requires g.queue != [] && g.queue[0] == Empty
    ensures FreeArrived(Plain(HandedOut(g), procs[p := Put(Holding(g.nextId))]))
  {
    var g1 := Made(g).(available := g.available - 1);
    GetMakes(g, procs, p);
    PlainMoves(Made(g), procs, p, Get(DropAvailable(g.nextId)), Proceed, g1, Get(BumpInUse(g.nextId)));
    PlainMoves(g1, procs, p, Get(BumpInUse(g.nextId)), Proceed, HandedOut(g), Put(Holding(g.nextId)));
  }

  // -------------------------------------------------------------- SetCapacity waits for ever

  // SetCapacity takes the mutex ...
  lemma SetBegins(g: Pool, procs: seq<Pc>, p: nat, target: nat, closing: map<nat, ClosePhase>, closes: nat)
    returns (a: Client)
    requires FreeArrived(Closings(g, procs, closing, closes)) && g.fault == NoFault && !g.closed
    requires p < |procs| && procs[p] == Idle && p !in closing && target <= g.maxCap
    ensures Known(a)
    ensures a == Client(State(g, procs[p := Resize(Load(target))]), Some(p), closing, false, false, closes)
  {
    var z := Closings(g, procs, closing, closes);
    a := Client(State(g, procs[p := Resize(Load(target))]), Some(p), closing, false, false, closes);
    FreeIsKnown(z);
    Steps(z, p, CallResize(target), a);
  }

  // ... and enters its loop.
  lemma SetLoops(g: Pool, procs: seq<Pc>, p: nat, target: nat, closing: map<nat, ClosePhase>, closes: nat)
    returns (a: Client)
    requires FreeArrived(Closings(g, procs, closing, closes)) && g.fault == NoFault && !g.closed
    requires p < |procs| && procs[p] == Idle && p !in closing && target <= g.maxCap && 0 < g.capacity != target
    ensures Known(a)
    ensures a == Client(State(g.(capacity := target), procs[p := Resize(LoopStart(g.capacity, target))]), Some(p),
      closing, false, false, closes)
  {
    var b := SetBegins(g, procs, p, target, closing, closes);
    a := LoopBegins(b, p);
    assert procs[p := Resize(Load(target))][p := Resize(LoopStart(g.capacity, target))]
        == procs[p := Resize(LoopStart(g.capacity, target))];
    Onward(b, a);
  }

  // A run of the client leads to these calls with `inUse` resources out, and the
  // SetCapacity of process 1 waits for ever.
  ghost predicate Waits(a: Client, procs: seq<Pc>, inUse: int) {
    && Arrived(a) && a.core.procs == procs && a.core.pool.inUse == inUse
    && a.holder == Some(1) && !CanReturn(a, 1)
  }

  lemma OnePinnedWaits(g: Pool, pc: Pc) returns (a: Client)
    requires FreeArrived(Plain(g, [pc, Idle])) && PinnedBy(pc) == 1
    requires g.fault == NoFault && g.capacity >= 1 && !g.closed
    ensures Waits(a, [pc, Resize(Load(0))], g.inUse)
  {
    a := SetBegins(g, [pc, Idle], 1, 0, map[], 0);
    assert [pc, Idle][1 := Resize(Load(0))] == [pc, Resize(Load(0))];
    PinnedWaits(a);
  }

  lemma PinnedWaits(a: Client)
    requires Arrived(a) && !Panicked(a) && a.holder == Some(1) && a.closing == map[] && !a.core.pool.closed
    requires |a.core.procs| == 2 && PinnedBy(a.core.procs[0]) == 1 && a.core.procs[1] == Resize(Load(0))
    ensures !CanReturn(a, 1)
  {
    SumAtLeast(Pinned, a.core.procs, 0);
    SetCapacityReturnsIff(a, 1);
  }

  /** A Get that took the mutex first deadlocks a resize to nothing although nothing is yet
      in use. */
  lemma GetUnderWayDeadlocks()
    ensures exists a :: Waits(a, [Get(DropAvailable(0)), Resize(Load(0))], 0)
  {
    var g := Fresh(1, 1, 2).pool;
    FreshArrives(1, 1, 2);
    assert Repeat(Idle, 2) == [Idle, Idle];
    GetMakes(g, [Idle, Idle], 0);
    assert [Idle, Idle][0 := Get(DropAvailable(0))] == [Get(DropAvailable(0)), Idle];
    var a := OnePinnedWaits(Made(g), Get(DropAvailable(0)));
  }

  /** So does a connection in a client's hands. */
  lemma ShrinkCanDeadlock()
    ensures exists a :: Waits(a, [Put(Holding(0)), Resize(Load(0))], 1)
  {
    var g := Fresh(1, 1, 2).pool;
    FreshArrives(1, 1, 2);
    assert Repeat(Idle, 2) == [Idle, Idle];
    GetHandsOut(g, [Idle, Idle], 0);
    assert [Idle, Idle][0 := Put(Holding(0))] == [Put(Holding(0)), Idle];
    var a := OnePinnedWaits(HandedOut(g), Put(Holding(0)));
  }

  // ------------------------------------------------------------------------ Closes alone

  // Close number `closes` + 1 reads the pointer, and later starts to resize.
  lemma EntersFree(g: Pool, procs: seq<Pc>, p: nat, closing: map<nat, ClosePhase>, closes: nat)
    requires FreeArrived(Closings(g, procs, closing, closes)) && g.fault == NoFault
    requires p < |procs| && procs[p] == Idle && p !in closing
    ensures FreeArrived(Closings(g, procs, closing[p := Entered], closes + 1))
  {
    FreeNextArrives(Closings(g, procs, closing, closes), p, CallClose,
      Closings(g, procs, closing[p := Entered], closes + 1));
  }

  lemma StartsFree(g: Pool, procs: seq<Pc>, p: nat, closing: map<nat, ClosePhase>, closes: nat)
    requires FreeArrived(Closings(g, procs, closing, closes)) && g.fault == NoFault && !SweepRuns(procs)
    requires p < |procs| && procs[p] == Idle && p in closing && closing[p] == Entered
    ensures FreeArrived(Closings(g.(sweepStopped := true), procs[p := Resize(Load(0))], closing[p := Emptying], closes))
  {
    var a := Closings(g, procs, closing, closes);
    var b := Closings(g.(sweepStopped := true), procs[p := Resize(Load(0))], closing[p := Emptying], closes);
    assert Step(a.core, p, CallClose) == Some(b.core);
    FreeNextArrives(a, p, Proceed, b);
  }

  lemma ResizesFree(g0: Pool, procs: seq<Pc>, p: nat, closing: map<nat, ClosePhase>, closes: nat, g: Pool, pc: Pc)
    requires FreeArrived(Closings(g0, procs, closing, closes)) && g0.fault == NoFault
    requires p < |procs| && procs[p].Resize? && p in closing && closing[p] == Emptying
    requires ResizeStep(g0, procs[p].resize) == Some(Local(g, pc))
    ensures FreeArrived(Closings(g, procs[p := pc], closing[p := if pc == Idle then Emptied else Emptying], closes))
  {
    var a := Closings(g0, procs, closing, closes);
    var b := Closings(g, procs[p := pc], closing[p := if pc == Idle then Emptied else Emptying], closes);
    assert pc != Idle ==> b.closing == closing;
    assert Step(a.core, p, Proceed) == Some(b.core);
    FreeNextArrives(a, p, Proceed, b);
  }

  // A Close takes the capacity to zero.
  lemma ExchangesFree(g: Pool, procs: seq<Pc>, p: nat, closing: map<nat, ClosePhase>, closes: nat)
    requires FreeArrived(Closings(g, procs, closing, closes)) && g.fault == NoFault && g.capacity >= 1
    requires p < |procs| && procs[p] == Resize(Load(0)) && p in closing && closing[p] == Emptying
    ensures FreeArrived(Closings(g.(capacity := 0), procs[p := Resize(Drain(0, g.capacity))], closing, closes))
  {
    var pc1, pc2 := Resize(Cas(0, g.capacity)), Resize(Drain(0, g.capacity));
    assert closing[p := Emptying] == closing;
    ResizesFree(g, procs, p, closing, closes, g, pc1);
    ResizesFree(g, procs[p := pc1], p, closing, closes, g.(capacity := 0), pc2);
    assert procs[p := pc1][p := pc2] == procs[p := pc2];
  }

  // -------------------------------------------------------------- SetCapacity against Close

  lemma CloseEnters(g: Pool, procs: seq<Pc>, p2: nat)
    requires FreeArrived(Plain(g, procs)) && g.fault == NoFault
    requires p2 < |procs| && procs[p2] == Idle && !SweepRuns(procs)
    ensures FreeArrived(Closings(g.(sweepStopped := true), procs[p2 := Resize(Load(0))], map[p2 := Emptying], 1))
  {
    EntersFree(g, procs, p2, map[], 0);
    StartsFree(g, procs, p2, map[p2 := Entered], 1);
    assert map[p2 := Entered][p2 := Emptying] == map[p2 := Emptying];
  }

  // On a pool of two Close has had the mutex and SetCapacity to less is in its loop.
  lemma CallsCross(g: Pool, procs: seq<Pc>, p1: nat, p2: nat, target: nat) returns (a: Client)
    requires FreeArrived(Plain(g, procs)) && p1 < |procs| && p2 < |procs| && p1 != p2 && !SweepRuns(procs)
    requires procs[p1] == Idle && procs[p2] == Idle && g.fault == NoFault && !g.closed
    requires target < g.capacity == 2 <= g.maxCap
    ensures Known(a) && a.holder == Some(p1) && a.closing == map[p2 := Emptying] && !a.missing && !a.putPanic
    ensures a.core.pool == g.(sweepStopped := true, capacity := target)
    ensures a.core.procs == procs[p1 := Resize(Drain(target, 2 - target))][p2 := Resize(Load(0))]
  {
    CloseEnters(g, procs, p2);
    a := SetLoops(g.(sweepStopped := true), procs[p2 := Resize(Load(0))], p1, target, map[p2 := Emptying], 1);
    assert a.core.procs == procs[p1 := Resize(Drain(target, 2 - target))][p2 := Resize(Load(0))];
  }

  lemma CrossingMeets(g: Pool, procs: seq<Pc>, p1: nat, p2: nat) returns (b: Client)
    requires FreeArrived(Plain(g, procs)) && p1 < |procs| && p2 < |procs| && p1 != p2 && !SweepRuns(procs)
    requires procs[p1] == Idle && procs[p2] == Idle && g.fault == NoFault && !g.closed && g.capacity == 2 <= g.maxCap
    ensures Arrived(b) && Meets(b, p1, p2)
    ensures b.core.procs == procs[p1 := Resize(Drain(1, 1))][p2 := Resize(Drain(0, 1))]
  {
    var a := CallsCross(g, procs, p1, p2, 1);
    KnownRuns(a, p1);
    b := OverlapArises(a, p1, p2);
    assert procs[p1 := Resize(Drain(1, 1))][p2 := Resize(Load(0))][p2 := Resize(Drain(0, 1))]
        == procs[p1 := Resize(Drain(1, 1))][p2 := Resize(Drain(0, 1))];
    ArrivesLater(a, b);
  }

  lemma KnownRuns(a: Client, p1: nat)
    requires Known(a) && !Panicked(a) && a.holder == Some(p1) && p1 < |a.core.procs| && !a.core.pool.closed
    requires a.core.pool.capacity == 1 && a.core.procs[p1] == Resize(Drain(1, 1))
    ensures Running(a)
  {
  }

  // A pool of two with one resource out, and with two.
  lemma OneOut() returns (g: Pool)
    ensures FreeArrived(Plain(g, [Put(Holding(0)), Idle, Idle]))
    ensures g.fault == NoFault && !g.closed && g.capacity == 2 == g.maxCap
  {
    var g0 := Fresh(2, 2, 3).pool;
    FreshArrives(2, 2, 3);
    GetHandsOut(g0, Repeat(Idle, 3), 0);
    assert Repeat(Idle, 3)[0 := Put(Holding(0))] == [Put(Holding(0)), Idle, Idle];
    g := HandedOut(g0);
  }

  lemma TwoOut() returns (g: Pool)
    ensures FreeArrived(Plain(g, [Put(Holding(0)), Put(Holding(1)), Idle, Idle]))
    ensures g.fault == NoFault && !g.closed && g.capacity == 2 == g.maxCap
  {
    var g0 := Fresh(2, 2, 4).pool;
    var procs := Repeat(Idle, 4)[0 := Put(Holding(0))];
    FreshArrives(2, 2, 4);
    GetHandsOut(g0, Repeat(Idle, 4), 0);
    GetHandsOut(HandedOut(g0), procs, 1);
    assert procs[1 := Put(Holding(1))] == [Put(Holding(0)), Put(Holding(1)), Idle, Idle];
    g := HandedOut(HandedOut(g0));
  }

  /** One resource out is enough: SetCapacity(1) against Close can panic in the client's Put
      although the sweep was stopped. */
  lemma CloseAgainstShrinkPanics()
    ensures exists a :: Arrived(a) && Meets(a, 1, 2) && CanPanic(a)
  {
    var g := OneOut();
    var a := CrossingMeets(g, [Put(Holding(0)), Idle, Idle], 1, 2);
    assert a.core.procs == [Put(Holding(0)), Resize(Drain(1, 1)), Resize(Drain(0, 1))];
    CollisionPanics(a);
  }

  lemma SumThree(m: Measure, procs: seq<Pc>)
    requires |procs| == 3
    ensures Sum(m, procs) == Weight(m, procs[0]) + Weight(m, procs[1]) + Weight(m, procs[2])
  {
    SumUpdate(m, procs, 0, Idle);
    SumOnlyTwo(m, procs[0 := Idle], 1, 2);
  }

  lemma CollisionPanics(a: Client)
    requires Meets(a, 1, 2) && a.core.procs == [Put(Holding(0)), Resize(Drain(1, 1)), Resize(Drain(0, 1))]
    ensures CanPanic(a)
  {
    SumThree(Pinned, a.core.procs);
    SumThree(Tokens, a.core.procs);
    OverlapPanicsIff(a, 1, 2);
  }

  /** Two resources out, and SetCapacity(1) and Close wait for each other's tokens. */
  lemma CloseCanDeadlock()
    ensures exists a :: Arrived(a) && Meets(a, 2, 3) && !CanFinish(a, 3)
  {
    var g := TwoOut();
    var a := CrossingMeets(g, [Put(Holding(0)), Put(Holding(1)), Idle, Idle], 2, 3);
    JamFollows(a);
  }

  lemma JamFollows(a: Client)
    requires Arrived(a) && Meets(a, 2, 3) && |a.core.procs| == 4
    requires PinnedBy(a.core.procs[0]) == 1 && PinnedBy(a.core.procs[1]) == 1
    requires a.core.procs[2] == Resize(Drain(1, 1)) && a.core.procs[3] == Resize(Drain(0, 1))
    ensures !CanFinish(a, 3)
  {
    SumAtLeastTwo(Pinned, a.core.procs, 0, 1);
    OpenJamHolds(a, 2, 3);
    CloseReturnsIff(a, 3);
  }

  ghost predicate BothWait(a: Client, p1: nat, p2: nat) {
    a.holder == Some(p1) && a.closing == map[p2 := Emptying] && !CanReturn(a, p1) && !CanFinish(a, p2)
  }

  function ZeroCalls(): seq<Pc> {
    [Put(Holding(0)), Resize(Drain(0, 2)), Resize(Load(0))]
  }

  /** One resource out, and SetCapacity(0) and a Close that had the mutex before wait for it. */
  lemma ZeroAgainstCloseDeadlocks()
    ensures exists a :: Arrived(a) && a.core.procs == ZeroCalls() && BothWait(a, 1, 2)
  {
    var g := OneOut();
    var a := CallsCross(g, [Put(Holding(0)), Idle, Idle], 1, 2, 0);
    assert a.core.procs == ZeroCalls();
    ZeroJamFollows(a);
  }

  lemma ZeroJamFollows(a: Client)
    requires Arrived(a) && !Panicked(a) && a.holder == Some(1) && 2 in a.closing && !a.core.pool.closed
    requires |a.core.procs| == 3 && PinnedBy(a.core.procs[0]) == 1 && a.core.procs[1] == Resize(Drain(0, 2))
    ensures !CanFinish(a, 2) && !CanReturn(a, 1)
  {
    SumAtLeast(Pinned, a.core.procs, 0);
    CloseReturnsIff(a, 2);
    SetCapacityReturnsIff(a, 1);
  }

  // ------------------------------------------------------------- SetCapacity to zero

  // A sweep has begun on a pool of one ...
  lemma SweepBegins(n: nat)
    requires n > 0
    ensures FreeArrived(Plain(Fresh(1, 1, n).pool, Repeat(Idle, n)[0 := Sweep(Scan(1))]))
  {
    var g := Fresh(1, 1, n).pool;
    FreshArrives(1, 1, n);
    FreeNextArrives(Plain(g, Repeat(Idle, n)), 0, CallSweep, Plain(g, Repeat(Idle, n)[0 := Sweep(Scan(1))]));
  }

  // ... and SetCapacity(0) closes the channel.
  lemma ZeroCloses(g: Pool, procs: seq<Pc>, p: nat, closing: map<nat, ClosePhase>, closes: nat) returns (a: Client)
    requires FreeArrived(Closings(g, procs, closing, closes)) && g.fault == NoFault && !g.closed
    requires g.capacity == |g.queue| == 1 && p < |procs| && procs[p] == Idle && p !in closing
    ensures Arrived(a) && Tidy(a) && a.core.pool.closed && a.core.pool.queue == [] && a.core.pool.fault == NoFault
    ensures a == Closings(a.core.pool, procs, closing, closes)
  {
    var d := SetLoops(g, procs, p, 0, closing, closes);
    a := DrainEnds(d, p);
    assert d.core.procs[p := Idle] == procs;
    ArrivesLater(d, a);
  }

  /** SetCapacity(0) leaves the sweep running, and the client's sweep can panic without any
      Close. */
  lemma ZeroCapacityPanics()
    ensures exists a :: Arrived(a) && a.closes == 0 && a.core.pool.fault == SendOnClosed
  {
    SweepBegins(2);
    assert Repeat(Idle, 2)[0 := Sweep(Scan(1))] == [Sweep(Scan(1)), Idle];
    var a := ZeroCloses(Fresh(1, 1, 2).pool, [Sweep(Scan(1)), Idle], 1, map[], 0);
    SweepPanics(a);
  }

  lemma SweepPanics(a: Client)
    requires Arrived(a) && Tidy(a) && !Panicked(a) && a.closes == 0 && a.core.pool.closed && a.core.pool.queue == []
    requires a.core.procs == [Sweep(Scan(1)), Idle]
    ensures exists a :: Arrived(a) && a.closes == 0 && a.core.pool.fault == SendOnClosed
  {
    var pc := Sweep(Restore(Empty, 1, false));
    var b := a.(core := State(a.core.pool, [pc, Idle]));
    assert a.core.procs[0 := pc] == b.core.procs && b.core.procs[0 := pc] == b.core.procs;
    assert Step(a.core, 0, Proceed) == Some(b.core);
    FreeNext(a, 0, Proceed);
    NextTidy(a, b);
    var d := b.(core := State(a.core.pool.(fault := SendOnClosed), [pc, Idle]));
    assert Step(b.core, 0, Proceed) == Some(d.core);
    FreeNext(b, 0, Proceed);
    var z :| ClientInit(z) && Reaches(z, a);
    ReachesNext(z, a, b);
    ReachesNext(z, b, d);
  }

  /** A Close that waits for the sweep when SetCapacity(0) closes the channel waits for ever. */
  lemma SweepBlocksClose()
    ensures exists a :: Arrived(a) && a.closing == map[2 := Entered] && a.holder == None && !CanFinish(a, 2)
  {
    var g, procs := Fresh(1, 1, 3).pool, Repeat(Idle, 3)[0 := Sweep(Scan(1))];
    SweepBegins(3);
    EntersFree(g, procs, 2, map[], 0);
    var a := ZeroCloses(g, procs, 1, map[2 := Entered], 1);
    assert Caught(a.core.procs[0]);
    CloseReturnsIff(a, 2);
  }

  // ----------------------------------------------------------------- Close against Close

  // A Put finds the pointer dropped, after at most k Closes and without any SetCapacity.
  ghost predicate PutFails(k: nat) {
    exists a :: FreeArrived(a) && a.putPanic && a.closes <= k
  }

  lemma OneCloseIsFine(a: Client)
    requires FreeArrived(a) && a.closes <= 1
    ensures !a.putPanic
  {
    var run :| Unresized(run) && run[|run| - 1] == a;
    forall i | 0 <= i < |run| ensures !Collision(run[i]) && Nonzero(run[i]) {
      RunIsTidy(run, i);
      NoCollision(run[i]);
    }
    PanicsOnlyByCollision(run, |run| - 1);
  }

  lemma NoCollision(a: Client)
    requires Tidy(a) && a.holder == None
    ensures !Collision(a)
  {
    forall p1: nat, p2: nat ensures !Collides(a.core, p1, p2) {
      if Collides(a.core, p1, p2) { LooperHolds(a, p1); }
    }
  }

  // The first Close takes the capacity to zero and waits for the connection.
  lemma FirstCloses(g: Pool)
    requires FreeArrived(Closings(g, [Put(Holding(0)), Idle, Idle], map[], 0))
    requires g.fault == NoFault && !g.closed && g.capacity == 1
    ensures FreeArrived(Closings(g.(sweepStopped := true, capacity := 0), [Put(Holding(0)), Resize(Drain(0, 1)), Idle],
      map[1 := Emptying, 2 := Entered], 2))
  {
    var procs, g1 := [Put(Holding(0)), Idle, Idle], g.(sweepStopped := true);
    EntersFree(g, procs, 1, map[], 0);
    EntersFree(g, procs, 2, map[1 := Entered], 1);
    StartsFree(g, procs, 1, map[1 := Entered, 2 := Entered], 2);
    assert procs[1 := Resize(Load(0))] == [Put(Holding(0)), Resize(Load(0)), Idle];
    assert map[1 := Entered, 2 := Entered][1 := Emptying] == map[1 := Emptying, 2 := Entered];
    ExchangesFree(g1, [Put(Holding(0)), Resize(Load(0)), Idle], 1, map[1 := Emptying, 2 := Entered], 2);
    assert [Put(Holding(0)), Resize(Load(0)), Idle][1 := Resize(Drain(0, 1))]
        == [Put(Holding(0)), Resize(Drain(0, 1)), Idle];
  }

  // The second finds it gone and drops the pointer.
  lemma SecondDrops(g: Pool, procs: seq<Pc>, closing: map<nat, ClosePhase>) returns (b: Client)
    requires FreeArrived(Closings(g, procs, closing, 2)) && g.fault == NoFault && g.capacity == 0 && !SweepRuns(procs)
    requires |procs| == 3 && procs[2] == Idle && 2 in closing && closing[2] == Entered
    ensures FreeArrived(b)
    ensures b == Closings(g.(sweepStopped := true), procs, closing - {2}, 2).(missing := true)
  {
    var g1, procs1 := g.(sweepStopped := true), procs[2 := Resize(Load(0))];
    StartsFree(g, procs, 2, closing, 2);
    ResizesFree(g1, procs1, 2, closing[2 := Emptying], 2, g1, Idle);
    assert procs1[2 := Idle] == procs;
    var a := Closings(g1, procs, closing[2 := Emptying][2 := Emptied], 2);
    assert a.closing - {2} == closing - {2};
    b := a.(closing := a.closing - {2}, missing := true);
    FreeNextArrives(a, 2, Proceed, b);
  }

  // Two Closes; the first drains in process 1, a connection is with process 0.
  lemma PointerDropped() returns (a: Client)
    ensures FreeArrived(a) && !Panicked(a) && a.missing && a.holder == None && a.closing == map[1 := Emptying]
    ensures a.core.procs == [Put(Holding(0)), Resize(Drain(0, 1)), Idle] && !a.core.pool.closed && a.closes == 2
  {
    var g0 := Fresh(1, 1, 3).pool;
    FreshArrives(1, 1, 3);
    GetHandsOut(g0, Repeat(Idle, 3), 0);
    assert Repeat(Idle, 3)[0 := Put(Holding(0))] == [Put(Holding(0)), Idle, Idle];
    var g := HandedOut(g0);
    FirstCloses(g);
    a := SecondDrops(g.(sweepStopped := true, capacity := 0), [Put(Holding(0)), Resize(Drain(0, 1)), Idle],
      map[1 := Emptying, 2 := Entered]);
  }

  lemma TwoClosesPanic()
    ensures PutFails(2)
  {
    var a := PointerDropped();
    FreeNextArrives(a, 0, Proceed, a.(putPanic := true));
  }

  /** ... and the first Close, which waits for that connection, can never return. */
  lemma FirstCloseWaits()
    ensures exists a :: FreeArrived(a) && !Panicked(a) && 1 in a.closing && !CanFinish(a, 1)
  {
    var a := PointerDropped();
    FreeIsKnown(a);
    SumAtLeast(Pinned, a.core.procs, 0);
    CloseReturnsIff(a, 1);
  }

  /** Without SetCapacity a Put can find the pool's pointer dropped if and only if Close may be
      called twice: the second Close returns while the first still waits for the connection. */
  lemma PutFailsIff(k: nat)
    ensures PutFails(k) <==> k >= 2
  {
    if k >= 2 {
      TwoClosesPanic();
      var a :| FreeArrived(a) && a.putPanic && a.closes <= 2;
      assert a.closes <= k;
    } else {
      forall a | FreeArrived(a) && a.closes <= k ensures !a.putPanic { OneCloseIsFine(a); }
    }
  }
}
