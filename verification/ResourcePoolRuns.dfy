/** Safety of whole runs in which resizes do not overlap, and what goes wrong otherwise. */
module ResourcePoolRuns {
  import opened Common
  import opened ResourcePool
  import opened ResourcePoolSafety

  /** At most one SetCapacity is in flight. */
  ghost predicate Serial(s: State) {
    Sum(Resizing, s.procs) <= 1
  }

  // A lone resizer in its loop owns the capacity, and the channel is open.
  ghost predicate LoopOk(g: Pool, pc: Pc) {
    Contribution(pc).moving == 1 ==> g.capacity == pc.resize.target && !g.closed
  }

  ghost predicate SerialInv(s: State) {
    && Shape(s) && Ledger(s)
    && (forall i :: 0 <= i < |s.procs| ==> LoopOk(s.pool, s.procs[i]))
  }

  lemma InitSerialInv(s: State)
    requires Init(s)
    ensures SerialInv(s) && Serial(s)
  {
    EmptyQueueCounts(s.pool.capacity);
    forall m: Measure ensures Sum(m, s.procs) == 0 {
      SumZero(m, s.procs);
    }
  }

  lemma SoleMover(s: State, p: nat)
    requires Serial(s) && p < |s.procs| && Contribution(s.procs[p]).moving == 1
    ensures Sum(ToDrain, s.procs) == Weight(ToDrain, s.procs[p])
    ensures Sum(ToFill, s.procs) == Weight(ToFill, s.procs[p])
  {
    forall i | 0 <= i < |s.procs| && i != p ensures Weight(Resizing, s.procs[i]) == 0 {
      SumAtLeastTwo(Resizing, s.procs, p, i);
    }
    SumOnly(ToDrain, s.procs, p);
    SumOnly(ToFill, s.procs, p);
  }

  lemma NoMover(s: State)
    requires forall i :: 0 <= i < |s.procs| ==> Contribution(s.procs[i]).moving == 0
    ensures Sum(ToDrain, s.procs) == Sum(ToFill, s.procs) == Sum(Moving, s.procs) == 0
  {
    SumZero(ToDrain, s.procs);
    SumZero(ToFill, s.procs);
    SumZero(Moving, s.procs);
  }

  lemma MoverBound(g: Pool, pc: ResizePc)
    requires ResizeOk(g, pc) && LoopOk(g, Resize(pc)) && ResizeContribution(pc).moving == 1
    ensures g.capacity + ResizeContribution(pc).drain - ResizeContribution(pc).fill <= g.maxCap && !g.closed
  {
  }

  // The tokens in circulation fit the channel, and a closed channel leaves none.
  lemma TokensBounded(s: State)
    requires SerialInv(s) && Serial(s)
    ensures |s.pool.queue| + Sum(Tokens, s.procs) <= s.pool.maxCap
    ensures s.pool.closed ==> s.pool.queue == [] && Sum(Tokens, s.procs) == 0
  {
    if p :| 0 <= p < |s.procs| && Contribution(s.procs[p]).moving == 1 {
      assert LoopOk(s.pool, s.procs[p]) && PcOk(s.pool, s.procs[p]);
      SoleMover(s, p);
      MoverBound(s.pool, s.procs[p].resize);
    } else {
      NoMover(s);
      SumAtMostCapacityWhenClosed(s);
      SumNonNegative(Tokens, s.procs);
    }
  }

  lemma SumAtMostCapacityWhenClosed(s: State)
    requires Shape(s)
    ensures s.pool.closed ==> s.pool.capacity == 0
  {
    SumNonNegative(ToZero, s.procs);
  }

  // A local step of one process keeps LoopOk of another unless it is a resizer itself.
  lemma OnlyResizersMoveCapacity(g: Pool, pc: Pc, sweepRuns: bool, c: Choice)
    requires LocalStep(g, pc, sweepRuns, c).Some? && !pc.Resize?
    ensures var g' := LocalStep(g, pc, sweepRuns, c).value.pool; g'.capacity == g.capacity && g'.closed == g.closed
    ensures Contribution(LocalStep(g, pc, sweepRuns, c).value.pc).moving == 0
  {
  }

  lemma ResizerKeepsOwnLoop(g: Pool, pc: ResizePc)
    requires ResizeStep(g, pc).Some? && ResizeOk(g, pc) && LoopOk(g, Resize(pc)) && (g.closed ==> g.capacity == 0)
    ensures var l := ResizeStep(g, pc).value; LoopOk(l.pool, l.pc)
  {
  }

  lemma StepKeepsLoop(s: State, p: nat, c: Choice, i: nat)
    requires Serial(s) && Step(s, p, c).Some? && i < |s.procs| && LoopOk(s.pool, s.procs[i])
    requires PcOk(s.pool, s.procs[p]) && (s.pool.closed ==> s.pool.capacity == 0)
    ensures LoopOk(Step(s, p, c).value.pool, Step(s, p, c).value.procs[i])
  {
    if !s.procs[p].Resize? {
      OnlyResizersMoveCapacity(s.pool, s.procs[p], SweepRuns(s.procs), c);
    } else if i == p {
      ResizerKeepsOwnLoop(s.pool, s.procs[p].resize);
    } else {
      SumAtLeastTwo(Resizing, s.procs, p, i);
    }
  }

  /** Serial resizes: every step of every call keeps the whole invariant. */
  lemma StepKeepsSerialInv(s: State, p: nat, c: Choice)
    requires SerialInv(s) && Serial(s) && Step(s, p, c).Some?
    ensures SerialInv(Step(s, p, c).value)
  {
    assert LoopOk(s.pool, s.procs[p]);
    StepKeepsLedger(s, p, c);
    SumAtMostCapacityWhenClosed(s);
    forall i | 0 <= i < |s.procs| { StepKeepsLoop(s, p, c, i); }
  }

  // -------------------------------------------------------------------- panics

  // A sweep about to send back a wrapper that a closed channel handed it.
  ghost predicate SweepAfterClose(s: State, p: nat) {
    p < |s.procs| && s.procs[p].Sweep? && s.procs[p].sweep.Restore? && s.pool.closed
  }

  /** With serial resizes a step panics exactly when an idle sweep sends on the closed
      channel; a Put never finds the channel full and nothing is closed twice. */
  lemma StepPanicsIff(s: State, p: nat, c: Choice)
    requires SerialInv(s) && Serial(s) && Step(s, p, c).Some?
    ensures Step(s, p, c).value.pool.fault != NoFault <==> SweepAfterClose(s, p)
    ensures Step(s, p, c).value.pool.fault in {NoFault, SendOnClosed}
  {
    TokensBounded(s);
    SumAtLeast(Tokens, s.procs, p);
    assert LoopOk(s.pool, s.procs[p]);
    LocalPanics(s.pool, s.procs[p], SweepRuns(s.procs), c);
  }

  lemma LocalPanics(g: Pool, pc: Pc, sweepRuns: bool, c: Choice)
    requires LocalStep(g, pc, sweepRuns, c).Some? && g.fault == NoFault && LoopOk(g, pc)
    requires |g.queue| + Contribution(pc).tokens <= g.maxCap
    requires g.closed ==> Contribution(pc).tokens <= 0
    ensures var f := LocalStep(g, pc, sweepRuns, c).value.pool.fault;
      (f != NoFault <==> pc.Sweep? && pc.sweep.Restore? && g.closed) && f in {NoFault, SendOnClosed}
  {
    if pc.Put? && pc.put.Return? { assert Contribution(pc).tokens == 1; }
    if pc.Get? && pc.get.Refill? { assert Contribution(pc).tokens == 1; }
    if pc.Resize? && (pc.resize.Fill? || pc.resize.Drain?) { assert Contribution(pc).moving == 1; }
  }

  ghost predicate SerialRun(run: seq<State>) {
    && IsRun(run) && Init(run[0])
    && forall i :: 0 <= i < |run| ==> Serial(run[i])
  }

  /** Every state of every serial run balances its books. */
  lemma {:induction false} SerialRunInv(run: seq<State>, n: nat)
    requires SerialRun(run) && n < |run|
    ensures SerialInv(run[n])
  {
    if n == 0 {
      InitSerialInv(run[0]);
    } else {
      SerialRunInv(run, n - 1);
      RunStep(run, n);
      var p: nat, c :| Step(run[n - 1], p, c) == Some(run[n]);
      StepKeepsSerialInv(run[n - 1], p, c);
    }
  }

  // The pool is taken down to zero only by Close, that is once the sweep is stopped.
  ghost predicate ZeroOnlyByClose(s: State) {
    forall i :: 0 <= i < |s.procs| && s.procs[i].Resize? && s.procs[i].resize.target == 0 ==> s.pool.sweepStopped
  }

  ghost predicate ClosedByClose(run: seq<State>) {
    forall i :: 0 <= i < |run| ==> ZeroOnlyByClose(run[i])
  }

  lemma {:induction false} ClosedMeansSweepStopped(run: seq<State>, n: nat)
    requires SerialRun(run) && n < |run|
    requires ClosedByClose(run)
    ensures run[n].pool.capacity == 0 ==> run[n].pool.sweepStopped
  {
    if n > 0 {
      ClosedMeansSweepStopped(run, n - 1);
      RunStep(run, n);
      NextMonotone(run[n - 1], run[n]);
    }
  }

  lemma LocalMonotone(g: Pool, pc: Pc, sweepRuns: bool, c: Choice)
    requires LocalStep(g, pc, sweepRuns, c).Some?
    ensures var g' := LocalStep(g, pc, sweepRuns, c).value.pool;
      && (g.sweepStopped ==> g'.sweepStopped)
      && (g.closed ==> g'.closed)
      && (g'.capacity == 0 ==> g.capacity == 0 || (pc.Resize? && pc.resize.target == 0))
  {
  }

  // Closing and stopping are for good; only a resize to zero brings the capacity there.
  lemma NextMonotone(s: State, s': State)
    requires Next(s, s')
    ensures s.pool.sweepStopped ==> s'.pool.sweepStopped
    ensures s.pool.closed ==> s'.pool.closed
    ensures ZeroOnlyByClose(s) && s'.pool.capacity == 0 && s.pool.capacity != 0 ==> s.pool.sweepStopped
  {
    var p: nat, c :| Step(s, p, c) == Some(s');
    LocalMonotone(s.pool, s.procs[p], SweepRuns(s.procs), c);
  }

  lemma StepIsSafe(s: State, p: nat, c: Choice)
    requires SerialInv(s) && Serial(s) && Step(s, p, c).Some?
    requires s.pool.capacity == 0 ==> s.pool.sweepStopped
    ensures Step(s, p, c).value.pool.fault == NoFault
  {
    StepPanicsIff(s, p, c);
    if SweepAfterClose(s, p) {
      SumAtMostCapacityWhenClosed(s);
      SumAtLeast(Sweeping, s.procs, p);
    }
  }

  // Balanced, one resize at most, and the sweep stopped before the pool is gone.
  ghost predicate Calm(s: State) {
    SerialInv(s) && Serial(s) && (s.pool.capacity == 0 ==> s.pool.sweepStopped)
  }

  lemma CalmRun(run: seq<State>, n: nat)
    requires SerialRun(run) && n < |run| && ClosedByClose(run)
    ensures Calm(run[n])
  {
    SerialRunInv(run, n);
    ClosedMeansSweepStopped(run, n);
  }

  lemma NextIsSafe(s: State, s': State)
    requires Calm(s) && Next(s, s')
    ensures s'.pool.fault == NoFault
  {
    var p: nat, c :| Step(s, p, c) == Some(s');
    StepIsSafe(s, p, c);
  }

  lemma StartsSafe(run: seq<State>)
    requires SerialRun(run)
    ensures run[0].pool.fault == NoFault
  {
  }

  /** Serial resizes, with the pool closed only through Close: no call ever panics. */
  lemma SerialRunsNeverPanic(run: seq<State>, n: nat)
    requires SerialRun(run) && n < |run| && ClosedByClose(run)
    ensures run[n].pool.fault == NoFault
  {
    if n == 0 {
      StartsSafe(run);
    } else {
      CalmRun(run, n - 1);
      RunStep(run, n);
      NextIsSafe(run[n - 1], run[n]);
    }
  }

  lemma RunStep(run: seq<State>, n: nat)
    requires IsRun(run) && 0 < n < |run|
    ensures Next(run[n - 1], run[n])
  {
  }

  // ------------------------------------------------------- what the counters mean

  // No call is in flight: clients are idle or hold a resource.
  ghost predicate Quiet(s: State) {
    forall i :: 0 <= i < |s.procs| ==> s.procs[i] == Idle || (s.procs[i].Put? && s.procs[i].put.Holding?)
  }

  /** With no call in flight the published counters are exact. */
  lemma QuietCounters(s: State)
    requires Shape(s) && Ledger(s) && Quiet(s)
    ensures s.pool.available == |s.pool.queue| == s.pool.capacity - s.pool.inUse
    ensures s.pool.active == LiveCount(s.pool.queue) + s.pool.inUse
  {
    SumZero(ToDrain, s.procs);
    SumZero(ToFill, s.procs);
    SumZero(AvailLag, s.procs);
    SumEqual(Tokens, InUse, s.procs);
    SumEqual(Active, InUse, s.procs);
  }

  ghost predicate Holds(s: State, p: nat, id: nat) {
    p < |s.procs| && Contribution(s.procs[p]).owner == Some(id)
  }

  /** No resource is ever owned twice: not by two processes, not by a process and the
      queue, not twice by the queue; and a closed resource by nobody. */
  lemma OwnedOnce(s: State, id: nat)
    requires Ledger(s)
    ensures Occurs(s.pool.queue, id) <= 1
    ensures forall p, q :: Holds(s, p, id) && Holds(s, q, id) ==> p == q
    ensures forall p :: Holds(s, p, id) ==> Occurs(s.pool.queue, id) == 0 && id !in s.pool.dead
  {
    assert Occurs(s.pool.queue, id) + Sum(Owner(id), s.procs) == Bit(Alive(s.pool, id));
    SumNonNegative(Owner(id), s.procs);
    forall p, q | Holds(s, p, id) && Holds(s, q, id) ensures p == q {
      if p != q { SumAtLeastTwo(Owner(id), s.procs, p, q); }
    }
    forall p | Holds(s, p, id)
      ensures Occurs(s.pool.queue, id) == 0 && id !in s.pool.dead
    {
      SumAtLeast(Owner(id), s.procs, p);
    }
  }

  /** Once the pool is closed no process holds a token, so no later Get returns a
      resource; and with no call in flight all three counters are 0. */
  lemma ClosedForGood(run: seq<State>, n: nat, k: nat)
    requires SerialRun(run) && n <= k < |run| && run[n].pool.closed
    ensures run[k].pool.closed && run[k].pool.queue == []
    ensures forall i :: 0 <= i < |run[k].procs| ==> Contribution(run[k].procs[i]).tokens == 0
    ensures Quiet(run[k]) ==> run[k].pool.available == 0 && run[k].pool.inUse == 0 && run[k].pool.active == 0
  {
    StaysClosed(run, n, k);
    var s := run[k];
    SerialRunInv(run, k);
    TokensBounded(s);
    forall i | 0 <= i < |s.procs| ensures Contribution(s.procs[i]).tokens == 0 {
      SumAtLeast(Tokens, s.procs, i);
    }
    if Quiet(s) {
      QuietCounters(s);
      SumEqual(Tokens, InUse, s.procs);
    }
  }

  lemma {:induction false} StaysClosed(run: seq<State>, n: nat, k: nat)
    requires IsRun(run) && n <= k < |run| && run[n].pool.closed
    ensures run[k].pool.closed
  {
    if n < k {
      StaysClosed(run, n, k - 1);
      RunStep(run, k);
      NextMonotone(run[k - 1], run[k]);
    }
  }

  // ---------------------------------------------------- when the hypotheses fail

  ghost predicate Reachable(s: State) {
    exists run :: IsRun(run) && Init(run[0]) && run[|run| - 1] == s
  }

  lemma Reach(s: State, p: nat, c: Choice)
    requires Reachable(s) && Step(s, p, c).Some?
    ensures Reachable(Step(s, p, c).value)
  {
    var run :| IsRun(run) && Init(run[0]) && run[|run| - 1] == s;
    var s' := Step(s, p, c).value;
    assert Next(s, s');
    var longer := run + [s'];
    assert IsRun(longer) && longer[|longer| - 1] == s';
  }

  lemma ReachFresh(capacity: nat, maxCap: nat, n: nat)
    requires 0 < capacity <= maxCap
    ensures Reachable(Fresh(capacity, maxCap, n))
  {
    var run := [Fresh(capacity, maxCap, n)];
    assert IsRun(run) && Init(run[0]) && run[|run| - 1] == run[0];
  }

  // Process 0 runs a whole Get on a fresh pool.
  lemma ReachHolding(capacity: nat, maxCap: nat, n: nat)
    requires 0 < capacity <= maxCap && 0 < n
    ensures Reachable(Holding1(capacity, maxCap, n))
  {
    var s := Fresh(capacity, maxCap, n);
    ReachFresh(capacity, maxCap, n);
    Reach(s, 0, CallGet);
    var s1 := Step(s, 0, CallGet).value;
    assert s1.procs[0] == Get(Fetch(false));
    Reach(s1, 0, Proceed);
    var s2 := Step(s1, 0, Proceed).value;
    assert s2.procs[0] == Get(Unwrap(Empty));
    Reach(s2, 0, Proceed);
    var s3 := Step(s2, 0, Proceed).value;
    assert s3.procs[0] == Get(BumpActive(0));
    Reach(s3, 0, Proceed);
    var s4 := Step(s3, 0, Proceed).value;
    assert s4.procs[0] == Get(DropAvailable(0));
    Reach(s4, 0, Proceed);
    var s5 := Step(s4, 0, Proceed).value;
    assert s5.procs[0] == Get(BumpInUse(0));
    Reach(s5, 0, Proceed);
    var s6 := Step(s5, 0, Proceed).value;
    assert s6.procs == Holding1(capacity, maxCap, n).procs;
    assert s6.pool.queue == Repeat(Empty, capacity - 1);
  }

  // The state in which process 0 alone has taken a resource.
  function Holding1(capacity: nat, maxCap: nat, n: nat): State
    requires 0 < capacity <= maxCap && 0 < n
  {
    State(
      Pool(maxCap, Repeat(Empty, capacity - 1), false, capacity, capacity - 1, 1, 1, false, 1, {}, NoFault),
      [Put(Holding(0))] + Repeat(Idle, n - 1))
  }

  // Process p moves from pc0 to pc, whatever the others do.
  lemma Moves(g0: Pool, procs: seq<Pc>, p: nat, pc0: Pc, c: Choice, g: Pool, pc: Pc)
    requires p < |procs| && Reachable(State(g0, procs[p := pc0])) && g0.fault == NoFault && c != CallClose
    requires LocalStep(g0, pc0, false, c) == Some(Local(g, pc))
    ensures Reachable(State(g, procs[p := pc]))
  {
    var s := State(g0, procs[p := pc0]);
    assert s.procs[p := pc] == procs[p := pc];
    Reach(s, p, c);
  }

  // A resize call runs up to its loop.
  lemma ReachLoop(s: State, p: nat, target: nat)
    requires Reachable(s) && p < |s.procs| && s.procs[p] == Idle && s.pool.fault == NoFault
    requires 0 < s.pool.capacity != target <= s.pool.maxCap
    ensures Reachable(State(s.pool.(capacity := target), s.procs[p := Resize(LoopStart(s.pool.capacity, target))]))
  {
    var g, procs := s.pool, s.procs;
    assert procs[p := Idle] == procs;
    Moves(g, procs, p, Idle, CallResize(target), g, Resize(Load(target)));
    Moves(g, procs, p, Resize(Load(target)), Proceed, g, Resize(Cas(target, g.capacity)));
    Moves(g, procs, p, Resize(Cas(target, g.capacity)), Proceed,
      g.(capacity := target), Resize(LoopStart(g.capacity, target)));
  }

  function LoopStart(capacity: nat, target: nat): ResizePc {
    if target < capacity then Drain(target, capacity - target) else Fill(target, target - capacity)
  }

  // One round of the drain loop on an empty token.
  lemma ReachDrained(s: State, p: nat, target: nat, todo: nat)
    requires Reachable(s) && p < |s.procs| && s.procs[p] == Resize(Drain(target, todo)) && todo > 0
    requires s.pool.fault == NoFault && s.pool.queue != [] && s.pool.queue[0] == Empty
    ensures Reachable(State(
      s.pool.(queue := s.pool.queue[1..], available := s.pool.available - 1),
      s.procs[p := Resize(Drain(target, todo - 1))]))
  {
    var g, procs := s.pool, s.procs;
    var g1 := g.(queue := g.queue[1..]);
    assert procs[p := procs[p]] == procs;
    Moves(g, procs, p, procs[p], Proceed, g1, Resize(Drained(Empty, target, todo)));
    Moves(g1, procs, p, Resize(Drained(Empty, target, todo)), Proceed, g1, Resize(DrainedEmpty(target, todo)));
    Moves(g1, procs, p, Resize(DrainedEmpty(target, todo)), Proceed,
      g1.(available := g.available - 1), Resize(Drain(target, todo - 1)));
  }

  /** Two resizes in flight break the bound: a Put can find the channel full. */
  lemma OverlappingResizesPanic()
    ensures exists s :: Reachable(s) && s.pool.fault == PutIntoFull
  {
    var h := Holding1(2, 2, 3);
    ReachHolding(2, 2, 3);
    ReachLoop(h, 1, 1);
    var a := State(h.pool.(capacity := 1), h.procs[1 := Resize(Drain(1, 1))]);
    ReachLoop(a, 2, 2);
    var b := State(a.pool.(capacity := 2), a.procs[2 := Resize(Fill(2, 1))]);
    FillThenPut(b);
  }

  lemma FillThenPut(b: State)
    requires Reachable(b) && |b.procs| == 3 && b.pool.fault == NoFault && !b.pool.closed
    requires b.procs[0] == Put(Holding(0)) && b.procs[2] == Resize(Fill(2, 1))
    requires |b.pool.queue| + 1 == b.pool.maxCap
    ensures exists s :: Reachable(s) && s.pool.fault == PutIntoFull
  {
    var g := b.pool.(queue := b.pool.queue + [Empty]);
    assert b.procs[2 := b.procs[2]] == b.procs;
    Moves(b.pool, b.procs, 2, b.procs[2], Proceed, g, Resize(Filled(2, 1)));
    var procs := b.procs[2 := Resize(Filled(2, 1))];
    assert procs[0 := procs[0]] == procs;
    Moves(g, procs, 0, procs[0], Proceed, g, Put(Return(Live(0))));
    Moves(g, procs, 0, Put(Return(Live(0))), Proceed, g.(fault := PutIntoFull), Put(Return(Live(0))));
  }

  /** Resizing to zero without stopping the sweep can panic, even with one resize in flight. */
  lemma ZeroWithoutCloseCanPanic()
    ensures exists s :: Reachable(s) && Serial(s) && s.pool.fault == SendOnClosed
  {
    var s := Fresh(1, 1, 2);
    ReachFresh(1, 1, 2);
    assert s.procs[0 := Idle] == s.procs;
    Moves(s.pool, s.procs, 0, Idle, CallSweep, s.pool, Sweep(Scan(1)));
    var a := State(s.pool, s.procs[0 := Sweep(Scan(1))]);
    ReachLoop(a, 1, 0);
    var b := State(a.pool.(capacity := 0), a.procs[1 := Resize(Drain(0, 1))]);
    ReachDrained(b, 1, 0, 1);
    var d := State(b.pool.(queue := b.pool.queue[1..], available := 0), b.procs[1 := Resize(Drain(0, 0))]);
    assert d.procs == [Sweep(Scan(1)), Resize(Drain(0, 0))];
    CloseThenSweep(d);
  }

  lemma CloseThenSweep(d: State)
    requires Reachable(d) && d.procs == [Sweep(Scan(1)), Resize(Drain(0, 0))]
    requires d.pool.fault == NoFault && !d.pool.closed && d.pool.queue == []
    ensures exists s :: Reachable(s) && Serial(s) && s.pool.fault == SendOnClosed
  {
    var g, procs := d.pool, d.procs;
    var g1 := g.(closed := true);
    assert procs[1 := procs[1]] == procs;
    Moves(g, procs, 1, procs[1], Proceed, g1, Idle);
    var procs1 := procs[1 := Idle];
    assert procs1[0 := procs[0]] == procs1;
    Moves(g1, procs1, 0, procs1[0], Proceed, g1, Sweep(Restore(Empty, 1, false)));
    var procs2 := procs1[0 := Sweep(Restore(Empty, 1, false))];
    assert procs2[0 := procs2[0]] == procs2;
    Moves(g1, procs2, 0, procs2[0], Proceed, g1.(fault := SendOnClosed), procs2[0]);
    SumZero(Resizing, procs2);
  }
}
