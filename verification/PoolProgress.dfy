/** How the client's calls get on: loops that end, sweeps that end, tokens that go back; and a
    SetCapacity that waits for ever when no Close is in flight. */
module PoolProgress {
  import opened Common
  import opened ResourcePool
  import opened ResourcePoolSafety
  import opened ResourcePoolRuns
  import opened ConnectionPool

  // ------------------------------------------------------------- driving one call

  // p resizes: as SetCapacity, or as a Close past the sweep.
  ghost predicate Resizes(a: Client, p: nat) {
    && p < |a.core.procs| && a.core.procs[p].Resize? && !Panicked(a)
    && (p in a.closing ==> a.closing[p] == Emptying)
  }

  lemma TidyResizes(a: Client, p: nat)
    requires Tidy(a) && !Panicked(a) && p < |a.core.procs| && a.core.procs[p].Resize?
    ensures Resizes(a, p)
  {
    CloserTarget(a, p);
  }

  function Placing(a: Client, p: nat, g: Pool, pc: Pc): Client
    requires p < |a.core.procs|
  {
    After(a, p, State(g, a.core.procs[p := pc]))
  }

  lemma ResizerNext(a: Client, p: nat, g: Pool, pc: Pc)
    requires Resizes(a, p) && ResizeStep(a.core.pool, a.core.procs[p].resize) == Some(Local(g, pc))
    ensures ClientNext(a, Placing(a, p, g, pc))
  {
    assert ClientStep(a, p, Proceed) == Some(Placing(a, p, g, pc));
  }

  lemma PlacingTwice(a: Client, p: nat, g: Pool, pc: Pc, g': Pool, pc': Pc)
    requires p < |a.core.procs| && pc != Idle
    ensures Placing(Placing(a, p, g, pc), p, g', pc') == Placing(a, p, g', pc')
  {
    assert a.core.procs[p := pc][p := pc'] == a.core.procs[p := pc'];
  }

  // A Get, Put or sweep in flight moves; a client that gives back needs the mutex and a pool.
  lemma FreeNext(a: Client, q: nat, c: Choice)
    requires Tidy(a) && !Panicked(a) && q < |a.core.procs| && a.core.procs[q] != Idle && !a.core.procs[q].Resize?
    requires IsHolding(a.core.procs[q]) ==> a.holder == None && !a.missing
    requires Step(a.core, q, c).Some?
    ensures ClientNext(a, a.(core := Step(a.core, q, c).value))
  {
    NotClosing(a, q);
    HolderResizes(a, q);
    assert ClientStep(a, q, c) == Some(a.(core := Step(a.core, q, c).value));
  }

  lemma NotClosing(a: Client, q: nat)
    requires Tidy(a) && q < |a.core.procs| && a.core.procs[q] != Idle && !a.core.procs[q].Resize?
    ensures q !in a.closing
  {
    assert q in a.closing ==> CloserOk(a.core, q, a.closing[q]);
  }

  lemma HolderResizes(a: Client, q: nat)
    requires Tidy(a) && q < |a.core.procs| && !a.core.procs[q].Resize?
    ensures a.holder != Some(q)
  {
  }

  predicate InDrain(pc: ResizePc) {
    pc.Drain? || pc.Drained? || pc.DrainedLive? || pc.DrainedEmpty?
  }

  predicate InFill(pc: ResizePc) {
    pc.Fill? || pc.Filled?
  }

  // The tokens a process has still to take out, or to put in.
  function Due(pc: Pc): int { Weight(ToDrain, pc) }

  function Owed(pc: Pc): int { Weight(ToFill, pc) }

  // A drain or fill loop that has not lost count.
  predicate Counted(pc: ResizePc) {
    (InDrain(pc) && (pc.Drain? || pc.todo > 0)) || pc.Fill? || (pc.Filled? && pc.todo > 0)
  }

  // Steps to the end of a loop that never has to wait.
  function StepsLeft(pc: ResizePc): nat
    requires Counted(pc)
  {
    match pc
    case Drain(_, todo) => 4 * todo
    case Drained(_, _, todo) => 4 * todo - 1
    case DrainedLive(_, todo) => 4 * todo - 2
    case DrainedEmpty(_, todo) => 4 * todo - 3
    case Fill(_, todo) => 2 * todo
    case Filled(_, todo) => 2 * todo - 1
  }

  predicate SameFlags(g: Pool, g': Pool) {
    g'.fault == g.fault && g'.capacity == g.capacity && g'.maxCap == g.maxCap && g'.sweepStopped == g.sweepStopped
  }

  lemma DrainMoves(g: Pool, pc: ResizePc)
    requires InDrain(pc) && Counted(pc)
    requires (g.closed && pc.target > 0) || (!g.closed && Due(Resize(pc)) <= |g.queue|)
    ensures ResizeStep(g, pc).Some?
    ensures var l := ResizeStep(g, pc).value;
      && SameFlags(g, l.pool) && l.pool.closed == (g.closed || (pc.Drain? && pc.todo == 0 && pc.target == 0))
      && (l.pc == Idle <==> pc.Drain? && pc.todo == 0)
      && (!g.closed ==> |l.pool.queue| - Due(l.pc) == |g.queue| - Due(Resize(pc)))
      && (l.pc != Idle ==> l.pc.Resize? && InDrain(l.pc.resize) && Counted(l.pc.resize)
                           && l.pc.resize.target == pc.target && StepsLeft(l.pc.resize) < StepsLeft(pc))
  {
  }

  // p's loop has ended and nothing else has changed but the tokens.
  ghost predicate Ended(a: Client, p: nat, b: Client) {
    && p < |a.core.procs| && Reaches(a, b) && b == Placing(a, p, b.core.pool, Idle)
    && SameFlags(a.core.pool, b.core.pool)
  }

  lemma EndedLater(a: Client, p: nat, g: Pool, pc: Pc, b: Client)
    requires p < |a.core.procs| && pc != Idle && SameFlags(a.core.pool, g)
    requires ClientNext(a, Placing(a, p, g, pc)) && Ended(Placing(a, p, g, pc), p, b)
    ensures Ended(a, p, b)
  {
    PlacingTwice(a, p, g, pc, b.core.pool, Idle);
    NextReaches(a, Placing(a, p, g, pc), b);
  }

  lemma EndedNow(a: Client, p: nat, g: Pool)
    requires p < |a.core.procs| && SameFlags(a.core.pool, g) && ClientNext(a, Placing(a, p, g, Idle))
    ensures Ended(a, p, Placing(a, p, g, Idle))
  {
    ReachesSelf(a);
    ReachesNext(a, a, Placing(a, p, g, Idle));
  }

  /** A drain loop with enough tokens queued ends on its own, and so does one that takes the
      pool down to no less than one once the channel is closed. */
  lemma {:induction false} DrainEnds(a: Client, p: nat) returns (b: Client)
    requires Resizes(a, p) && InDrain(a.core.procs[p].resize) && Counted(a.core.procs[p].resize)
    requires var g, pc := a.core.pool, a.core.procs[p];
      (g.closed && pc.resize.target > 0) || (!g.closed && Due(pc) <= |g.queue|)
    ensures Ended(a, p, b) && b.core.pool.closed == (a.core.pool.closed || a.core.procs[p].resize.target == 0)
    ensures !a.core.pool.closed ==> |b.core.pool.queue| == |a.core.pool.queue| - Due(a.core.procs[p])
    decreases StepsLeft(a.core.procs[p].resize)
  {
    DrainMoves(a.core.pool, a.core.procs[p].resize);
    var l := ResizeStep(a.core.pool, a.core.procs[p].resize).value;
    var a1 := Placing(a, p, l.pool, l.pc);
    ResizerNext(a, p, l.pool, l.pc);
    if l.pc == Idle {
      b := a1;
      EndedNow(a, p, l.pool);
    } else {
      b := DrainEnds(a1, p);
      EndedLater(a, p, l.pool, l.pc, b);
    }
  }

  lemma FillMoves(g: Pool, pc: ResizePc)
    requires InFill(pc) && Counted(pc) && !g.closed && |g.queue| + Owed(Resize(pc)) <= g.maxCap
    ensures ResizeStep(g, pc).Some?
    ensures var l := ResizeStep(g, pc).value;
      && SameFlags(g, l.pool) && !l.pool.closed && (l.pc == Idle <==> pc.Fill? && pc.todo == 0)
      && |l.pool.queue| + Owed(l.pc) == |g.queue| + Owed(Resize(pc))
      && (l.pc != Idle ==> l.pc.Resize? && InFill(l.pc.resize) && Counted(l.pc.resize)
                           && l.pc.resize.target == pc.target && StepsLeft(l.pc.resize) < StepsLeft(pc))
  {
  }

  /** A fill loop with enough room in the channel ends on its own. */
  lemma {:induction false} FillEnds(a: Client, p: nat) returns (b: Client)
    requires Resizes(a, p) && InFill(a.core.procs[p].resize) && Counted(a.core.procs[p].resize)
    requires !a.core.pool.closed && |a.core.pool.queue| + Owed(a.core.procs[p]) <= a.core.pool.maxCap
    ensures Ended(a, p, b) && !b.core.pool.closed
    ensures |b.core.pool.queue| == |a.core.pool.queue| + Owed(a.core.procs[p])
    decreases StepsLeft(a.core.procs[p].resize)
  {
    FillMoves(a.core.pool, a.core.procs[p].resize);
    var l := ResizeStep(a.core.pool, a.core.procs[p].resize).value;
    var a1 := Placing(a, p, l.pool, l.pc);
    ResizerNext(a, p, l.pool, l.pc);
    if l.pc == Idle {
      b := a1;
      EndedNow(a, p, l.pool);
    } else {
      b := FillEnds(a1, p);
      EndedLater(a, p, l.pool, l.pc, b);
    }
  }

  // A resize passes the exchange of the capacity while nobody else moves.
  lemma LoopBegins(a: Client, p: nat) returns (b: Client)
    requires Resizes(a, p) && (a.core.procs[p].resize.Load? || a.core.procs[p].resize.Cas?)
    requires ResizersOk(a.core) && 0 < a.core.pool.capacity != a.core.procs[p].resize.target
    ensures Reaches(a, b)
    ensures var g, target := a.core.pool, a.core.procs[p].resize.target;
      b == Placing(a, p, g.(capacity := target), Resize(LoopStart(g.capacity, target)))
  {
    var g, pc := a.core.pool, a.core.procs[p].resize;
    var g', pc' := g.(capacity := pc.target), Resize(LoopStart(g.capacity, pc.target));
    if pc.Cas? && pc.seen == g.capacity {
      b := Placing(a, p, g', pc');
      ResizerNext(a, p, g', pc');
      ReachesSelf(a);
      ReachesNext(a, a, b);
    } else if pc.Load? {
      b := LoadThenCas(a, p);
    } else {
      var a1 := Placing(a, p, g, Resize(Load(pc.target)));
      ResizerNext(a, p, g, Resize(Load(pc.target)));
      b := LoadThenCas(a1, p);
      PlacingTwice(a, p, g, Resize(Load(pc.target)), g', pc');
      NextReaches(a, a1, b);
    }
  }

  lemma LoadThenCas(a: Client, p: nat) returns (b: Client)
    requires Resizes(a, p) && a.core.procs[p].resize.Load?
    requires 0 < a.core.pool.capacity != a.core.procs[p].resize.target
    ensures Reaches(a, b)
    ensures var g, target := a.core.pool, a.core.procs[p].resize.target;
      b == Placing(a, p, g.(capacity := target), Resize(LoopStart(g.capacity, target)))
  {
    var g, target := a.core.pool, a.core.procs[p].resize.target;
    var pc1, g', pc' := Resize(Cas(target, g.capacity)), g.(capacity := target), Resize(LoopStart(g.capacity, target));
    var a1 := Placing(a, p, g, pc1);
    ResizerNext(a, p, g, pc1);
    b := Placing(a1, p, g', pc');
    ResizerNext(a1, p, g', pc');
    PlacingTwice(a, p, g, pc1, g', pc');
    ReachesSelf(a1);
    ReachesNext(a1, a1, b);
    NextReaches(a, a1, b);
  }

  // On a pool taken down to nothing a resize before its exchange returns at once.
  lemma EntererEnds(a: Client, p: nat) returns (b: Client)
    requires Resizes(a, p) && !InLoop(a.core.procs[p]) && ResizersOk(a.core) && a.core.pool.capacity == 0
    ensures Reaches(a, b) && b == Placing(a, p, a.core.pool, Idle)
  {
    var g, pc := a.core.pool, a.core.procs[p].resize;
    if pc.Load? {
      ResizerNext(a, p, g, Idle);
      EndedNow(a, p, g);
      b := Placing(a, p, g, Idle);
    } else {
      var a1 := Placing(a, p, g, Resize(Load(pc.target)));
      ResizerNext(a, p, g, Resize(Load(pc.target)));
      ResizerNext(a1, p, g, Idle);
      EndedNow(a1, p, g);
      EndedLater(a, p, g, Resize(Load(pc.target)), Placing(a1, p, g, Idle));
      b := Placing(a1, p, g, Idle);
    }
  }

  lemma ReachesTidy(a: Client, b: Client)
    requires Tidy(a) && Reaches(a, b)
    ensures Tidy(b)
  {
    forall x, y | Tidy(x) && ClientNext(x, y) ensures Tidy(y) { NextTidy(x, y); }
    ReachesKeeps(x => Tidy(x), a, b);
  }

  ghost predicate BooksWhileOpen(a: Client) {
    Tidy(a) && (a.core.pool.closed || Books(a.core))
  }

  lemma BooksNext(a: Client, b: Client)
    requires BooksWhileOpen(a) && ClientNext(a, b)
    ensures BooksWhileOpen(b)
  {
    NextTidy(a, b);
    if !a.core.pool.closed {
      ClientStepKeepsBooks(a, b);
    } else {
      var p, c := NextMoves(a, b);
      if !Bookkeeping(a, b) { LocalMonotone(a.core.pool, a.core.procs[p], SweepRuns(a.core.procs), c); }
    }
  }

  // As long as the channel is open nothing breaks the books.
  lemma ReachesBooks(a: Client, b: Client)
    requires Tidy(a) && Books(a.core) && Reaches(a, b) && !b.core.pool.closed
    ensures Books(b.core)
  {
    forall x, y | BooksWhileOpen(x) && ClientNext(x, y) ensures BooksWhileOpen(y) { BooksNext(x, y); }
    ReachesKeeps(x => BooksWhileOpen(x), a, b);
  }

  // --------------------------------------------------------------- a pool in operation

  function DueAt(procs: seq<Pc>, p: nat): int { if p < |procs| then Due(procs[p]) else 0 }

  function OwedAt(procs: seq<Pc>, p: nat): int { if p < |procs| then Owed(procs[p]) else 0 }

  // The process that may be in the loop of SetCapacity; none when the mutex is free.
  function Looper(a: Client): nat {
    if a.holder.Some? then a.holder.value else |a.core.procs|
  }

  // No Close has taken the capacity to zero, and the holder of the mutex, once in its loop,
  // owns it.
  ghost predicate Running(a: Client) {
    && Tidy(a) && Books(a.core) && !Panicked(a) && a.core.pool.capacity >= 1
    && (a.holder.Some? ==> LoopOk(a.core.pool, a.core.procs[a.holder.value]))
  }

  ghost predicate OnlyLoops(procs: seq<Pc>, p: nat) {
    forall i :: 0 <= i < |procs| && i != p ==> !InLoop(procs[i])
  }

  lemma OneMoves(procs: seq<Pc>, p: nat)
    requires OnlyLoops(procs, p)
    ensures Sum(ToDrain, procs) == DueAt(procs, p) && Sum(ToFill, procs) == OwedAt(procs, p)
  {
    if p < |procs| {
      SumOnly(ToDrain, procs, p);
      SumOnly(ToFill, procs, p);
    } else {
      SumZero(ToDrain, procs);
      SumZero(ToFill, procs);
    }
  }

  lemma RunningLoops(a: Client)
    requires Tidy(a) && a.core.pool.capacity >= 1
    ensures OnlyLoops(a.core.procs, Looper(a))
  {
    forall i | 0 <= i < |a.core.procs| && i != Looper(a) ensures !InLoop(a.core.procs[i]) {
      assert i in a.closing ==> CloserOk(a.core, i, a.closing[i]);
    }
  }

  lemma OpenWhileCapacity(s: State)
    requires Shape(s) && s.pool.capacity >= 1
    ensures !s.pool.closed
  {
    SumNonNegative(ToZero, s.procs);
  }

  lemma LooperFits(g: Pool, pc: Pc)
    requires pc.Resize? && ResizeOk(g, pc.resize) && LoopOk(g, pc) && g.capacity <= g.maxCap
    ensures g.capacity + Due(pc) - Owed(pc) <= g.maxCap && 0 <= Due(pc) && 0 <= Owed(pc)
  {
  }

  lemma RunningTokens(a: Client)
    requires Running(a)
    ensures var g, procs := a.core.pool, a.core.procs;
      |g.queue| + Sum(Tokens, procs) == g.capacity + DueAt(procs, Looper(a)) - OwedAt(procs, Looper(a)) <= g.maxCap
    ensures 0 <= DueAt(a.core.procs, Looper(a)) && 0 <= OwedAt(a.core.procs, Looper(a)) && !a.core.pool.closed
  {
    RunningLoops(a);
    OneMoves(a.core.procs, Looper(a));
    OpenWhileCapacity(a.core);
    if a.holder.Some? { LooperFits(a.core.pool, a.core.procs[a.holder.value]); }
  }

  // --------------------------------------------------------------- steps that do not resize

  // The channel is open and has room for every token.
  ghost predicate Roomy(a: Client) {
    && Tidy(a) && Books(a.core) && !Panicked(a) && !a.core.pool.closed
    && |a.core.pool.queue| + Sum(Tokens, a.core.procs) <= a.core.pool.maxCap
  }

  lemma RunningIsRoomy(a: Client)
    requires Running(a)
    ensures Roomy(a)
  {
    RunningTokens(a);
  }

  lemma RoomFor(a: Client, q: nat)
    requires Roomy(a) && q < |a.core.procs|
    ensures |a.core.pool.queue| + Weight(Tokens, a.core.procs[q]) <= a.core.pool.maxCap
  {
    SumAtLeast(Tokens, a.core.procs, q);
  }

  // The resizes stand where they stood.
  ghost predicate SameResizers(a: Client, b: Client) {
    && b == a.(core := b.core) && |b.core.procs| == |a.core.procs|
    && SameFlags(a.core.pool, b.core.pool) && b.core.pool.closed == a.core.pool.closed
    && forall i :: 0 <= i < |a.core.procs| && (a.core.procs[i].Resize? || b.core.procs[i].Resize?) ==>
         b.core.procs[i] == a.core.procs[i]
  }

  lemma OthersKeepFlags(g: Pool, pc: Pc, sweepRuns: bool, c: Choice)
    requires LocalStep(g, pc, sweepRuns, c).Some? && !pc.Resize? && pc != Idle
    ensures var l := LocalStep(g, pc, sweepRuns, c).value;
      && !l.pc.Resize? && l.pool.closed == g.closed && l.pool.capacity == g.capacity && l.pool.maxCap == g.maxCap
      && l.pool.sweepStopped == g.sweepStopped
  {
  }

  // The ledger's line about tokens.
  ghost predicate Circulates(s: State) {
    |s.pool.queue| + Sum(Tokens, s.procs) == s.pool.capacity + Sum(ToDrain, s.procs) - Sum(ToFill, s.procs)
  }

  lemma BooksCirculate(s: State)
    requires Books(s)
    ensures Circulates(s)
  {
  }

  lemma SameCirculation(s: State, s': State, q: nat)
    requires Circulates(s) && Circulates(s') && q < |s.procs| == |s'.procs| && s'.procs == s.procs[q := s'.procs[q]]
    requires !s.procs[q].Resize? && !s'.procs[q].Resize? && s'.pool.capacity == s.pool.capacity
    ensures |s'.pool.queue| + Sum(Tokens, s'.procs) == |s.pool.queue| + Sum(Tokens, s.procs)
  {
    SumUpdate(ToDrain, s.procs, q, s'.procs[q]);
    SumUpdate(ToFill, s.procs, q, s'.procs[q]);
  }

  // A step that neither resizes nor panics.
  lemma RoomyStays(a: Client, q: nat, c: Choice) returns (b: Client)
    requires Roomy(a) && q < |a.core.procs| && a.core.procs[q] != Idle && !a.core.procs[q].Resize?
    requires IsHolding(a.core.procs[q]) ==> a.holder == None && !a.missing
    requires Step(a.core, q, c).Some? && Step(a.core, q, c).value.pool.fault == NoFault
    ensures b == a.(core := Step(a.core, q, c).value) && ClientNext(a, b) && Roomy(b) && SameResizers(a, b)
  {
    b := a.(core := Step(a.core, q, c).value);
    FreeNext(a, q, c);
    NextTidy(a, b);
    StepKeepsBooks(a.core, q, c);
    OthersKeepFlags(a.core.pool, a.core.procs[q], SweepRuns(a.core.procs), c);
    BooksCirculate(a.core);
    BooksCirculate(b.core);
    SameCirculation(a.core, b.core, q);
  }

  lemma SameTwice(a: Client, b: Client, d: Client)
    requires SameResizers(a, b) && SameResizers(b, d)
    ensures SameResizers(a, d)
  {
  }

  lemma RunningCarries(a: Client, b: Client)
    requires Running(a) && Roomy(b) && SameResizers(a, b)
    ensures Running(b)
  {
  }

  // ------------------------------------------------------------------- ending sweeps

  lemma SweepMoves(g: Pool, pc: Pc, sweepRuns: bool)
    requires pc.Sweep? && !g.closed && g.fault == NoFault && |g.queue| + Weight(Tokens, pc) <= g.maxCap && PcOk(g, pc)
    ensures LocalStep(g, pc, sweepRuns, Proceed).Some?
    ensures var l := LocalStep(g, pc, sweepRuns, Proceed).value;
      l.pool.fault == NoFault && RoundsOf(l.pc) < RoundsOf(pc) && (l.pc == Idle || l.pc.Sweep?)
  {
  }

  lemma SweepNext(a: Client, q: nat) returns (b: Client)
    requires Roomy(a) && q < |a.core.procs| && a.core.procs[q].Sweep?
    ensures ClientNext(a, b) && Roomy(b) && SameResizers(a, b) && SweepMoved(a.core.procs, b.core.procs, q)
  {
    RoomFor(a, q);
    assert PcOk(a.core.pool, a.core.procs[q]);
    SweepMoves(a.core.pool, a.core.procs[q], SweepRuns(a.core.procs));
    b := RoomyStays(a, q, Proceed);
  }

  ghost predicate SweepMoved(procs: seq<Pc>, procs': seq<Pc>, q: nat) {
    && q < |procs| == |procs'| && procs' == procs[q := procs'[q]]
    && procs[q].Sweep? && (procs'[q] == Idle || procs'[q].Sweep?) && RoundsOf(procs'[q]) < RoundsOf(procs[q])
  }

  lemma SweepSums(procs: seq<Pc>, procs': seq<Pc>, q: nat)
    requires SweepMoved(procs, procs', q)
    ensures Sum(Pinned, procs') == Sum(Pinned, procs) && 0 <= Sum(Rounds, procs') < Sum(Rounds, procs)
  {
    SumUpdate(Pinned, procs, q, procs'[q]);
    SumUpdate(Rounds, procs, q, procs'[q]);
    SumNonNegative(Rounds, procs');
  }

  /** A running sweep can end whatever the other calls wait for, as long as the channel is open. */
  lemma {:induction false} SweepsEnd(a: Client) returns (b: Client)
    requires Roomy(a)
    ensures Reaches(a, b) && Roomy(b) && SameResizers(a, b) && !SweepRuns(b.core.procs)
    ensures Sum(Pinned, b.core.procs) == Sum(Pinned, a.core.procs)
    ensures forall i :: 0 <= i < |a.core.procs| && a.core.procs[i] == Idle ==> b.core.procs[i] == Idle
    decreases Sum(Rounds, a.core.procs)
  {
    if q :| 0 <= q < |a.core.procs| && a.core.procs[q].Sweep? {
      var a1 := SweepNext(a, q);
      SweepSums(a.core.procs, a1.core.procs, q);
      b := SweepsEnd(a1);
      NextReaches(a, a1, b);
      SameTwice(a, a1, b);
    } else {
      b := a;
      ReachesSelf(a);
    }
  }

  // ---------------------------------------------------------------- tokens that go back

  lemma {:induction false} PinnedAreTokens(procs: seq<Pc>)
    ensures 0 <= Sum(Pinned, procs) <= Sum(Tokens, procs)
  {
    if procs != [] { PinnedAreTokens(procs[1..]); }
  }

  // What a process with a token to give back does next: a Get lets its factory fail.
  function BackChoice(pc: Pc): Choice {
    if pc.Get? && pc.get.Unwrap? then Otherwise else Proceed
  }

  lemma BackStep(g: Pool, pc: Pc, sweepRuns: bool)
    requires DetourOf(pc) > 0 && !g.closed && |g.queue| < g.maxCap
    ensures !pc.Resize? && pc != Idle && !IsHolding(pc) && LocalStep(g, pc, sweepRuns, BackChoice(pc)).Some?
    ensures var l := LocalStep(g, pc, sweepRuns, BackChoice(pc)).value;
      && !l.pc.Resize? && l.pool.fault == g.fault
      && DetourOf(l.pc) == DetourOf(pc) - 1 && PinnedBy(l.pc) == PinnedBy(pc)
  {
  }

  lemma TokenInHand(pc: Pc)
    requires DetourOf(pc) > 0
    ensures Weight(Tokens, pc) == 1
  {
  }

  // The token of process r goes one step towards the channel.
  ghost predicate BackMoved(procs: seq<Pc>, procs': seq<Pc>, r: nat) {
    && r < |procs| == |procs'| && procs' == procs[r := procs'[r]] && !procs[r].Resize? && !procs'[r].Resize?
    && DetourOf(procs'[r]) == DetourOf(procs[r]) - 1 && PinnedBy(procs'[r]) == PinnedBy(procs[r])
  }

  lemma BackSums(procs: seq<Pc>, procs': seq<Pc>, r: nat)
    requires BackMoved(procs, procs', r)
    ensures Sum(Pinned, procs') == Sum(Pinned, procs) && 0 <= Sum(Detour, procs') == Sum(Detour, procs) - 1
  {
    SumUpdate(Pinned, procs, r, procs'[r]);
    SumUpdate(Detour, procs, r, procs'[r]);
    SumNonNegative(Detour, procs');
  }

  lemma BackNext(a: Client, r: nat) returns (b: Client)
    requires Roomy(a) && r < |a.core.procs| && DetourOf(a.core.procs[r]) > 0
    ensures ClientNext(a, b) && Roomy(b) && SameResizers(a, b) && BackMoved(a.core.procs, b.core.procs, r)
  {
    RoomFor(a, r);
    TokenInHand(a.core.procs[r]);
    var c := BackChoice(a.core.procs[r]);
    BackStep(a.core.pool, a.core.procs[r], SweepRuns(a.core.procs));
    b := RoomyStays(a, r, c);
  }

  // A process with nothing to give back has pinned whatever it holds.
  lemma {:induction false} AllPinned(procs: seq<Pc>)
    requires forall i :: 0 <= i < |procs| ==> DetourOf(procs[i]) == 0
    ensures Sum(Tokens, procs) <= Sum(Pinned, procs)
  {
    if procs != [] { AllPinned(procs[1..]); }
  }

  /** All tokens that are not pinned can go back to the open channel, whatever the mutex. */
  lemma {:induction false} AllGoBack(a: Client) returns (b: Client)
    requires Roomy(a)
    ensures Reaches(a, b) && Roomy(b) && SameResizers(a, b)
    ensures Sum(Pinned, b.core.procs) == Sum(Pinned, a.core.procs) == Sum(Tokens, b.core.procs)
    decreases Sum(Detour, a.core.procs)
  {
    if r :| 0 <= r < |a.core.procs| && DetourOf(a.core.procs[r]) > 0 {
      var a1 := BackNext(a, r);
      BackSums(a.core.procs, a1.core.procs, r);
      b := AllGoBack(a1);
      NextReaches(a, a1, b);
      SameTwice(a, a1, b);
    } else {
      b := a;
      ReachesSelf(a);
      AllPinned(a.core.procs);
      PinnedAreTokens(a.core.procs);
    }
  }

  // A Close starts to resize once no sweep is running.
  lemma CloseBegins(a: Client, i: nat) returns (b: Client)
    requires Tidy(a) && !Panicked(a) && i in a.closing && a.closing[i] == Entered && !SweepRuns(a.core.procs)
    ensures ClientNext(a, b) && Tidy(b) && !Panicked(b) && i < |a.core.procs| && a.core.procs[i] == Idle
    ensures b == a.(closing := a.closing[i := Emptying], core := b.core)
    ensures b.core == State(a.core.pool.(sweepStopped := true), a.core.procs[i := Resize(Load(0))])
    ensures Books(a.core) ==> Books(b.core)
  {
    assert CloserOk(a.core, i, Entered);
    b := Client(State(a.core.pool.(sweepStopped := true), a.core.procs[i := Resize(Load(0))]), a.holder,
      a.closing[i := Emptying], a.missing, a.putPanic, a.closes);
    assert ClientStep(a, i, Proceed) == Some(b);
    NextTidy(a, b);
    if Books(a.core) { StepKeepsBooks(a.core, i, CallClose); }
  }

  // ------------------------------------------------------ a SetCapacity with no Close beside it

  /** Some continuation lets process p's SetCapacity return. */
  ghost predicate CanReturn(a: Client, p: nat) {
    exists b :: Reaches(a, b) && b.holder != Some(p) && !Panicked(b)
  }

  lemma OneResizer(s: State, p: nat, q: nat)
    requires Serial(s) && p < |s.procs| && q < |s.procs| && p != q && s.procs[p].Resize?
    ensures !s.procs[q].Resize?
  {
    SumAtLeastTwo(Resizing, s.procs, p, q);
  }

  // Process p is shrinking the pool to `target`; the others may stand anywhere.
  ghost predicate Shrinking(s: State, p: nat, target: nat) {
    p < |s.procs| && s.procs[p].Resize? && ShrinkPc(s.pool, s.procs[p].resize, target)
  }

  ghost predicate ShrinkPc(g: Pool, pc: ResizePc, target: nat) {
    match pc
    case Load(t) => t == target < g.capacity
    case Cas(t, _) => t == target < g.capacity
    case Fill(_, _) => false
    case Filled(_, _) => false
    case _ => pc.target == target
  }

  // A shrink to `target` is under way and more tokens are pinned than that leaves.
  ghost predicate Stuck(s: State, p: nat, target: nat) {
    SerialInv(s) && Serial(s) && Shrinking(s, p, target) && Sum(Pinned, s.procs) > target
  }

  // More tokens pinned than the target leaves: the drain loop is not done.
  lemma DrainNotDone(s: State, p: nat, target: nat)
    requires Stuck(s, p, target) && s.procs[p].resize.Drain?
    ensures s.procs[p].resize.todo > 0
  {
    SoleMover(s, p);
    PinnedAreTokens(s.procs);
    assert LoopOk(s.pool, s.procs[p]);
  }

  lemma ShrinkerStaysInside(g: Pool, pc: ResizePc, target: nat)
    requires ShrinkPc(g, pc, target) && ResizeStep(g, pc).Some? && LoopOk(g, Resize(pc)) && ResizeOk(g, pc)
    requires pc.Drain? ==> pc.todo > 0
    ensures var l := ResizeStep(g, pc).value; l.pc.Resize? && ShrinkPc(l.pool, l.pc.resize, target)
  {
  }

  // Only a resize in its loop, or one that exchanges the capacity, moves these.
  lemma OtherStaysOut(g: Pool, pc: Pc, sweepRuns: bool, c: Choice)
    requires !InLoop(pc) && LocalStep(g, pc, sweepRuns, c).Some?
    requires pc.Resize? ==> g.capacity == 0 && ResizeOk(g, pc.resize)
    ensures var l := LocalStep(g, pc, sweepRuns, c).value;
      !InLoop(l.pc) && l.pool.capacity == g.capacity && l.pool.closed == g.closed
  {
  }

  // While the mutex is held a token once pinned stays pinned.
  lemma OtherStaysPinned(g: Pool, pc: Pc, sweepRuns: bool, c: Choice)
    requires !InLoop(pc) && !NeedsMutex(pc, c) && LocalStep(g, pc, sweepRuns, c).Some?
    requires pc.Resize? ==> g.capacity == 0 && ResizeOk(g, pc.resize)
    ensures var l := LocalStep(g, pc, sweepRuns, c).value;
      PinnedBy(pc) <= PinnedBy(l.pc) && (l.pc.Resize? ==> pc.Resize? || c == CallClose)
  {
  }

  lemma ShrinkerStep(s: State, p: nat, c: Choice, target: nat)
    requires Stuck(s, p, target) && Step(s, p, c).Some?
    ensures var s' := Step(s, p, c).value; Shrinking(s', p, target) && Sum(Pinned, s'.procs) == Sum(Pinned, s.procs)
  {
    if s.procs[p].resize.Drain? { DrainNotDone(s, p, target); }
    assert LoopOk(s.pool, s.procs[p]) && PcOk(s.pool, s.procs[p]);
    ShrinkerStaysInside(s.pool, s.procs[p].resize, target);
    SumUpdate(Pinned, s.procs, p, Step(s, p, c).value.procs[p]);
  }

  lemma OtherStep(s: State, p: nat, q: nat, c: Choice, target: nat)
    requires Shrinking(s, p, target) && q < |s.procs| && q != p && !s.procs[q].Resize?
    requires Step(s, q, c).Some? && !NeedsMutex(s.procs[q], c)
    ensures var s' := Step(s, q, c).value; Shrinking(s', p, target) && Sum(Pinned, s'.procs) >= Sum(Pinned, s.procs)
  {
    OtherStaysOut(s.pool, s.procs[q], SweepRuns(s.procs), c);
    OtherStaysPinned(s.pool, s.procs[q], SweepRuns(s.procs), c);
    SumUpdate(Pinned, s.procs, q, Step(s, q, c).value.procs[q]);
  }

  lemma OnlyOneResizes(a: Client, p: nat)
    requires Tidy(a) && a.holder == Some(p) && a.closing == map[]
    ensures Serial(a.core)
  {
    SumOnly(Resizing, a.core.procs, p);
  }

  // The shrink holds the mutex, and no Close is in flight.
  ghost predicate Waiting(a: Client, p: nat, target: nat) {
    Tidy(a) && a.holder == Some(p) && a.closing == map[] && Stuck(a.core, p, target)
  }

  lemma StuckStep(s: State, p: nat, q: nat, c: Choice, target: nat)
    requires Stuck(s, p, target) && Step(s, q, c).Some? && !NeedsMutex(s.procs[q], c)
    ensures var s' := Step(s, q, c).value;
      SerialInv(s') && Shrinking(s', p, target) && Sum(Pinned, s'.procs) > target
  {
    StepKeepsSerialInv(s, q, c);
    if q == p {
      ShrinkerStep(s, p, c, target);
    } else {
      OneResizer(s, p, q);
      OtherStep(s, p, q, c, target);
    }
  }

  // While the mutex is held no Close comes in.
  lemma NoCloseEnters(a: Client, b: Client, p: nat)
    requires Tidy(a) && a.holder == Some(p) && a.closing == map[] && ClientNext(a, b)
    ensures b.closing == map[] && (b.core.procs == a.core.procs || b.core.procs[p].Resize? ==> b.holder == Some(p))
  {
  }

  lemma StaysWaiting(a: Client, b: Client, p: nat, target: nat)
    requires Waiting(a, p, target) && ClientNext(a, b)
    ensures Waiting(b, p, target)
  {
    NextTidy(a, b);
    NoCloseEnters(a, b, p);
    var q, c := NextMoves(a, b);
    if !Bookkeeping(a, b) {
      StuckStep(a.core, p, q, c, target);
      OnlyOneResizes(b, p);
    }
  }

  /** While more tokens are pinned than the target leaves and no Close had the mutex before,
      no run lets the shrink return, wherever the other calls stand. */
  lemma ShrinkNeverReturns(a: Client, b: Client, p: nat, target: nat)
    requires Waiting(a, p, target) && Reaches(a, b)
    ensures Waiting(b, p, target)
  {
    forall x, y | Waiting(x, p, target) && ClientNext(x, y) ensures Waiting(y, p, target) {
      StaysWaiting(x, y, p, target);
    }
    ReachesKeeps(x => Waiting(x, p, target), a, b);
  }

  /** With no other call past the mutex the pinned tokens are the resources in use. */
  lemma PinnedIsInUse(s: State)
    requires Ledger(s)
    requires forall i :: 0 <= i < |s.procs| ==> s.procs[i] == Idle || IsHolding(s.procs[i]) || s.procs[i].Resize?
    ensures Sum(Pinned, s.procs) == s.pool.inUse
  {
    SumEqual(Pinned, InUse, s.procs);
  }
}
