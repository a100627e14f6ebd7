/** What every interleaving of the resource pool keeps, and when it can panic. */
module ResourcePoolSafety {
  import opened Common
  import opened ResourcePool

  // ---------------------------------------------------------------- invariants

  ghost predicate ResizeOk(g: Pool, pc: ResizePc) {
    match pc
    case Load(target) => target <= g.maxCap
    case Cas(target, seen) => target <= g.maxCap && 1 <= seen <= g.maxCap && target != seen
    case Drain(target, todo) => target + todo <= g.maxCap
    case Fill(target, todo) => 1 <= target <= g.maxCap && todo <= target
    case Filled(target, todo) => 1 <= todo <= target <= g.maxCap
    case _ => 1 <= pc.todo && pc.target + pc.todo <= g.maxCap
  }

  ghost predicate PcOk(g: Pool, pc: Pc) {
    && (pc.Resize? ==> ResizeOk(g, pc.resize))
    && (pc.Sweep? && pc.sweep.Restore? && !pc.sweep.ok ==> g.closed && pc.sweep.w == Empty)
  }

  ghost predicate PoolOk(g: Pool) {
    && 1 <= g.maxCap && g.capacity <= g.maxCap && |g.queue| <= g.maxCap
    && (forall id :: id in g.dead ==> id < g.nextId)
  }

  /** Shape facts that hold however calls interleave, overlapping resizes included. */
  ghost predicate Shape(s: State) {
    && PoolOk(s.pool)
    && (forall i :: 0 <= i < |s.procs| ==> PcOk(s.pool, s.procs[i]))
    && Sum(ToZero, s.procs) + Bit(s.pool.closed) == Bit(s.pool.capacity == 0)
    && (s.pool.sweepStopped ==> Sum(Sweeping, s.procs) == 0)
  }

  function Alive(g: Pool, id: nat): bool {
    id < g.nextId && id !in g.dead
  }

  /** The books balance: every token and every resource is accounted for exactly. */
  ghost predicate Ledger(s: State) {
    && |s.pool.queue| + Sum(Tokens, s.procs) == s.pool.capacity + Sum(ToDrain, s.procs) - Sum(ToFill, s.procs)
    && s.pool.available == |s.pool.queue| + Sum(AvailLag, s.procs)
    && s.pool.inUse == Sum(InUse, s.procs)
    && s.pool.active == LiveCount(s.pool.queue) + Sum(Active, s.procs)
    && (forall id: nat :: Occurs(s.pool.queue, id) + Sum(Owner(id), s.procs) == Bit(Alive(s.pool, id)))
  }

  // ------------------------------------------------------------ one step, books

  // The step changes the counters, the queue and the process's hands by matching amounts.
  ghost predicate Balanced(g: Pool, a: Profile, g': Pool, b: Profile) {
    && CountsMatch(g, a, g', b)
    && ActiveMatch(g, a, g', b)
    && forall id: nat :: OwnersMatch(g, a, g', b, id)
  }

  ghost predicate CountsMatch(g: Pool, a: Profile, g': Pool, b: Profile) {
    && |g'.queue| - |g.queue| + b.tokens - a.tokens == g'.capacity - g.capacity + b.drain - a.drain - b.fill + a.fill
    && g'.available - g.available == |g'.queue| - |g.queue| + b.lag - a.lag
    && g'.inUse - g.inUse == b.inUse - a.inUse
  }

  ghost predicate ActiveMatch(g: Pool, a: Profile, g': Pool, b: Profile) {
    g'.active - g.active == LiveCount(g'.queue) - LiveCount(g.queue) + b.active - a.active
  }

  ghost predicate OwnersMatch(g: Pool, a: Profile, g': Pool, b: Profile, id: nat) {
    Occurs(g'.queue, id) - Occurs(g.queue, id) + Bit(b.owner == Some(id)) - Bit(a.owner == Some(id))
      == Bit(Alive(g', id)) - Bit(Alive(g, id))
  }

  lemma BalancedKeepsLedger(s: State, p: nat, g': Pool, pc': Pc)
    requires Ledger(s) && p < |s.procs| && Balanced(s.pool, Contribution(s.procs[p]), g', Contribution(pc'))
    ensures Ledger(State(g', s.procs[p := pc']))
  {
    var procs' := s.procs[p := pc'];
    SumUpdate(Tokens, s.procs, p, pc');
    SumUpdate(ToDrain, s.procs, p, pc');
    SumUpdate(ToFill, s.procs, p, pc');
    SumUpdate(AvailLag, s.procs, p, pc');
    SumUpdate(InUse, s.procs, p, pc');
    SumUpdate(Active, s.procs, p, pc');
    forall id: nat ensures Occurs(g'.queue, id) + Sum(Owner(id), procs') == Bit(Alive(g', id)) {
      SumUpdate(Owner(id), s.procs, p, pc');
      assert OwnersMatch(s.pool, Contribution(s.procs[p]), g', Contribution(pc'), id);
    }
  }

  // The local half of Shape.
  ghost predicate Shaped(g: Pool, pc: Pc, g': Pool, pc': Pc) {
    PoolOk(g') && PcOk(g', pc') && FlagsMatch(g, Contribution(pc), g', Contribution(pc'))
  }

  ghost predicate FlagsMatch(g: Pool, a: Profile, g': Pool, b: Profile) {
    && g'.maxCap == g.maxCap
    && (g.closed ==> g'.closed)
    && b.toZero - a.toZero + Bit(g'.closed) - Bit(g.closed) == Bit(g'.capacity == 0) - Bit(g.capacity == 0)
    && (g'.sweepStopped ==> b.sweeping <= a.sweeping)
  }

  lemma PcStaysOk(g: Pool, g': Pool, pc: Pc)
    requires PcOk(g, pc) && g'.maxCap == g.maxCap && (g.closed ==> g'.closed)
    ensures PcOk(g', pc)
  {
  }

  lemma ShapedKeepsShape(s: State, p: nat, g': Pool, pc': Pc)
    requires Shape(s) && p < |s.procs| && Shaped(s.pool, s.procs[p], g', pc')
    requires g'.sweepStopped ==> Sum(Sweeping, s.procs) == 0
    ensures Shape(State(g', s.procs[p := pc']))
  {
    FlagSums(s.procs, p, pc');
    PcsStayOk(s, p, g', s.procs[p := pc']);
  }

  lemma FlagSums(procs: seq<Pc>, p: nat, pc': Pc)
    requires p < |procs|
    ensures Sum(ToZero, procs[p := pc'])
         == Sum(ToZero, procs) - Contribution(procs[p]).toZero + Contribution(pc').toZero
    ensures 0 <= Sum(Sweeping, procs[p := pc'])
         == Sum(Sweeping, procs) - Contribution(procs[p]).sweeping + Contribution(pc').sweeping
  {
    SumUpdate(ToZero, procs, p, pc');
    SumUpdate(Sweeping, procs, p, pc');
    SumNonNegative(Sweeping, procs[p := pc']);
  }

  lemma PcsStayOk(s: State, p: nat, g': Pool, procs': seq<Pc>)
    requires Shape(s) && p < |s.procs| == |procs'| && procs' == s.procs[p := procs'[p]]
    requires Shaped(s.pool, s.procs[p], g', procs'[p])
    ensures forall i :: 0 <= i < |procs'| ==> PcOk(g', procs'[i])
  {
    forall i | 0 <= i < |procs'| ensures PcOk(g', procs'[i]) {
      if i != p { PcStaysOk(s.pool, g', s.procs[i]); }
    }
  }

  // A draining process that reads a closed, empty channel receives an empty wrapper
  // that was never a token.
  ghost predicate Forges(g: Pool, pc: Pc) {
    pc.Resize? && pc.resize.Drain? && pc.resize.todo > 0 && g.queue == [] && g.closed
  }

  // What a process holds is alive; while one drains to zero the channel is open.
  ghost predicate Fits(g: Pool, pc: Pc) {
    && PoolOk(g) && PcOk(g, pc)
    && (Contribution(pc).owner.Some? ==> Alive(g, Contribution(pc).owner.value))
    && (Contribution(pc).toZero == 1 ==> !g.closed && g.capacity == 0)
  }

  lemma ProcessFits(s: State, p: nat)
    requires Shape(s) && Ledger(s) && p < |s.procs|
    ensures Fits(s.pool, s.procs[p])
  {
    SumAtLeast(ToZero, s.procs, p);
    var owner := Contribution(s.procs[p]).owner;
    if owner.Some? {
      SumAtLeast(Owner(owner.value), s.procs, p);
      assert Occurs(s.pool.queue, owner.value) + Sum(Owner(owner.value), s.procs) == Bit(Alive(s.pool, owner.value));
    }
  }

  lemma StartBalanced(g: Pool, sweepRuns: bool, c: Choice)
    requires PoolOk(g) && StartStep(g, sweepRuns, c).Some?
    ensures var l := StartStep(g, sweepRuns, c).value;
      Balanced(g, Contribution(Idle), l.pool, Contribution(l.pc)) && Shaped(g, Idle, l.pool, l.pc)
  {
  }

  lemma GetCounts(g: Pool, pc: GetPc, c: Choice)
    requires Fits(g, Get(pc)) && GetStep(g, pc, c).Some?
    ensures var l := GetStep(g, pc, c).value; CountsMatch(g, GetContribution(pc), l.pool, Contribution(l.pc))
  {
  }

  lemma GetActive(g: Pool, pc: GetPc, c: Choice)
    requires Fits(g, Get(pc)) && GetStep(g, pc, c).Some?
    ensures var l := GetStep(g, pc, c).value; ActiveMatch(g, GetContribution(pc), l.pool, Contribution(l.pc))
  {
    if pc.Refill? { LiveCountAppend(g.queue, Empty); }
  }

  lemma GetOwners(g: Pool, pc: GetPc, c: Choice, id: nat)
    requires Fits(g, Get(pc)) && GetStep(g, pc, c).Some?
    ensures var l := GetStep(g, pc, c).value; OwnersMatch(g, GetContribution(pc), l.pool, Contribution(l.pc), id)
  {
    if pc.Refill? { OccursAppend(g.queue, Empty, id); }
  }

  lemma GetShaped(g: Pool, pc: GetPc, c: Choice)
    requires Fits(g, Get(pc)) && GetStep(g, pc, c).Some?
    ensures var l := GetStep(g, pc, c).value; Shaped(g, Get(pc), l.pool, l.pc)
  {
  }

  lemma PutCounts(g: Pool, pc: PutPc, c: Choice)
    requires Fits(g, Put(pc)) && PutStep(g, pc, c).Some?
    ensures var l := PutStep(g, pc, c).value; CountsMatch(g, PutContribution(pc), l.pool, Contribution(l.pc))
  {
  }

  lemma PutActive(g: Pool, pc: PutPc, c: Choice)
    requires Fits(g, Put(pc)) && PutStep(g, pc, c).Some?
    ensures var l := PutStep(g, pc, c).value; ActiveMatch(g, PutContribution(pc), l.pool, Contribution(l.pc))
  {
    if pc.Return? { LiveCountAppend(g.queue, pc.w); }
  }

  lemma PutOwners(g: Pool, pc: PutPc, c: Choice, id: nat)
    requires Fits(g, Put(pc)) && PutStep(g, pc, c).Some?
    ensures var l := PutStep(g, pc, c).value; OwnersMatch(g, PutContribution(pc), l.pool, Contribution(l.pc), id)
  {
    if pc.Return? { OccursAppend(g.queue, pc.w, id); }
  }

  lemma PutShaped(g: Pool, pc: PutPc, c: Choice)
    requires Fits(g, Put(pc)) && PutStep(g, pc, c).Some?
    ensures var l := PutStep(g, pc, c).value; Shaped(g, Put(pc), l.pool, l.pc)
  {
  }

  lemma ResizeCounts(g: Pool, pc: ResizePc)
    requires Fits(g, Resize(pc)) && ResizeStep(g, pc).Some? && !Forges(g, Resize(pc))
    ensures var l := ResizeStep(g, pc).value; CountsMatch(g, ResizeContribution(pc), l.pool, Contribution(l.pc))
  {
  }

  lemma ResizeActive(g: Pool, pc: ResizePc)
    requires Fits(g, Resize(pc)) && ResizeStep(g, pc).Some? && !Forges(g, Resize(pc))
    ensures var l := ResizeStep(g, pc).value; ActiveMatch(g, ResizeContribution(pc), l.pool, Contribution(l.pc))
  {
    if pc.Fill? { LiveCountAppend(g.queue, Empty); }
  }

  lemma ResizeOwners(g: Pool, pc: ResizePc, id: nat)
    requires Fits(g, Resize(pc)) && ResizeStep(g, pc).Some? && !Forges(g, Resize(pc))
    ensures var l := ResizeStep(g, pc).value; OwnersMatch(g, ResizeContribution(pc), l.pool, Contribution(l.pc), id)
  {
    if pc.Fill? { OccursAppend(g.queue, Empty, id); }
  }

  lemma ResizeFlags(g: Pool, pc: ResizePc)
    requires Fits(g, Resize(pc)) && ResizeStep(g, pc).Some?
    ensures var l := ResizeStep(g, pc).value;
      PoolOk(l.pool) && FlagsMatch(g, ResizeContribution(pc), l.pool, Contribution(l.pc))
  {
  }

  lemma ResizeKeepsPcOk(g: Pool, pc: ResizePc)
    requires Fits(g, Resize(pc)) && ResizeStep(g, pc).Some?
    ensures var l := ResizeStep(g, pc).value; PcOk(l.pool, l.pc)
  {
  }

  lemma SweepCounts(g: Pool, pc: SweepPc, c: Choice)
    requires Fits(g, Sweep(pc)) && SweepStep(g, pc, c).Some?
    ensures var l := SweepStep(g, pc, c).value; CountsMatch(g, SweepContribution(pc), l.pool, Contribution(l.pc))
  {
  }

  lemma SweepActive(g: Pool, pc: SweepPc, c: Choice)
    requires Fits(g, Sweep(pc)) && SweepStep(g, pc, c).Some?
    ensures var l := SweepStep(g, pc, c).value; ActiveMatch(g, SweepContribution(pc), l.pool, Contribution(l.pc))
  {
    if pc.Restore? { LiveCountAppend(g.queue, pc.w); }
  }

  lemma SweepOwners(g: Pool, pc: SweepPc, c: Choice, id: nat)
    requires Fits(g, Sweep(pc)) && SweepStep(g, pc, c).Some?
    ensures var l := SweepStep(g, pc, c).value; OwnersMatch(g, SweepContribution(pc), l.pool, Contribution(l.pc), id)
  {
    if pc.Restore? { OccursAppend(g.queue, pc.w, id); }
  }

  lemma SweepShaped(g: Pool, pc: SweepPc, c: Choice)
    requires Fits(g, Sweep(pc)) && SweepStep(g, pc, c).Some?
    ensures var l := SweepStep(g, pc, c).value; Shaped(g, Sweep(pc), l.pool, l.pc)
  {
  }

  lemma LocalKeeps(g: Pool, pc: Pc, sweepRuns: bool, c: Choice)
    requires Fits(g, pc) && LocalStep(g, pc, sweepRuns, c).Some? && !Forges(g, pc)
    ensures var l := LocalStep(g, pc, sweepRuns, c).value;
      Balanced(g, Contribution(pc), l.pool, Contribution(l.pc)) && Shaped(g, pc, l.pool, l.pc)
  {
    match pc {
      case Idle =>
        StartBalanced(g, sweepRuns, c);
      case Get(get) =>
        GetCounts(g, get, c);
        GetActive(g, get, c);
        forall id: nat { GetOwners(g, get, c, id); }
        GetShaped(g, get, c);
      case Put(put) =>
        PutCounts(g, put, c);
        PutActive(g, put, c);
        forall id: nat { PutOwners(g, put, c, id); }
        PutShaped(g, put, c);
      case Resize(resize) =>
        ResizeCounts(g, resize);
        ResizeActive(g, resize);
        forall id: nat { ResizeOwners(g, resize, id); }
        ResizeFlags(g, resize);
        ResizeKeepsPcOk(g, resize);
      case Sweep(sweep) =>
        SweepCounts(g, sweep, c);
        SweepActive(g, sweep, c);
        forall id: nat { SweepOwners(g, sweep, c, id); }
        SweepShaped(g, sweep, c);
    }
  }

  lemma NoSweepSumsToZero(procs: seq<Pc>)
    requires !SweepRuns(procs)
    ensures Sum(Sweeping, procs) == 0
  {
    SumZero(Sweeping, procs);
  }

  /** Conservation: every step of every call keeps the books, for any number of
      overlapping resizes, unless the step drains an already closed channel. */
  lemma StepKeepsLedger(s: State, p: nat, c: Choice)
    requires Shape(s) && Ledger(s) && Step(s, p, c).Some? && !Forges(s.pool, s.procs[p])
    ensures Shape(Step(s, p, c).value) && Ledger(Step(s, p, c).value)
  {
    var pc := s.procs[p];
    var l := LocalStep(s.pool, pc, SweepRuns(s.procs), c).value;
    ProcessFits(s, p);
    LocalKeeps(s.pool, pc, SweepRuns(s.procs), c);
    if l.pool.sweepStopped && !s.pool.sweepStopped {
      StopWaitsForSweep(s.pool, pc, SweepRuns(s.procs), c);
      NoSweepSumsToZero(s.procs);
    }
    BalancedKeepsLedger(s, p, l.pool, l.pc);
    ShapedKeepsShape(s, p, l.pool, l.pc);
  }

  // The sweep is stopped by Close alone, which waits for a running one.
  lemma StopWaitsForSweep(g: Pool, pc: Pc, sweepRuns: bool, c: Choice)
    requires LocalStep(g, pc, sweepRuns, c).Some?
    requires LocalStep(g, pc, sweepRuns, c).value.pool.sweepStopped != g.sweepStopped
    ensures !sweepRuns && pc == Idle && c == CallClose && !g.sweepStopped
  {
  }
}
