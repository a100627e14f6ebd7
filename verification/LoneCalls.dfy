/** What each call of the resource pool does when no other call takes a step meanwhile: from
    its first step to its last, over every run. */
module LoneCalls {
  import opened Common
  import opened ResourcePool
  import opened ResourcePoolSafety
  import opened ResourcePoolRuns

  // How the environment behaves in one call: whether the factory makes a resource, whether the
  // caller waits for a token, whether Put is given nil, and which resources are idle too long.
  datatype Conduct = Conduct(made: bool, waits: bool, nilPut: bool, expired: nat -> bool)

  predicate Obeys(pc: Pc, c: Choice, v: Conduct) {
    match pc
    case Get(Fetch(waiting)) => if waiting then !c.Otherwise? else c.Otherwise? <==> !v.waits
    case Get(Unwrap(_)) => c.Otherwise? <==> !v.made
    case Put(Holding(_)) => c.Otherwise? <==> v.nilPut
    case Sweep(Check(w, _)) => w.Live? ==> (c.Otherwise? <==> v.expired(w.id))
    case _ => true
  }

  datatype Call = InGet | InPut | InResize | InSweep

  // The call a process is in; a client with a resource is about to Put it.
  predicate Inside(call: Call, pc: Pc) {
    match call
    case InGet => pc.Get?
    case InPut => pc.Put?
    case InResize => pc.Resize?
    case InSweep => pc.Sweep?
  }

  ghost predicate LocalNext(call: Call, v: Conduct, g: Pool, pc: Pc, g': Pool, pc': Pc) {
    && g.fault == NoFault && Inside(call, pc)
    && exists c, sweepRuns :: Obeys(pc, c, v) && LocalStep(g, pc, sweepRuns, c) == Some(Local(g', pc'))
  }

  ghost predicate LoneNext(call: Call, v: Conduct, s: State, s': State, p: nat) {
    && p < |s.procs| == |s'.procs| && s'.procs == s.procs[p := s'.procs[p]]
    && LocalNext(call, v, s.pool, s.procs[p], s'.pool, s'.procs[p])
  }

  // Process p alone moves, from inside the call until it leaves it at the latest.
  ghost predicate LoneRun(call: Call, v: Conduct, run: seq<State>, p: nat) {
    run != [] && p < |run[0].procs| && forall i :: 0 < i < |run| ==> LoneNext(call, v, run[i - 1], run[i], p)
  }

  /** Every step of the pool by a process inside the call is such a step. */
  lemma StepIsLone(call: Call, v: Conduct, s: State, p: nat, c: Choice)
    requires Step(s, p, c).Some? && Inside(call, s.procs[p]) && Obeys(s.procs[p], c, v)
    ensures LoneNext(call, v, s, Step(s, p, c).value, p)
  {
  }

  // What every step of the call keeps holds at its end.
  lemma {:induction false} LoneKeeps(
    inv: (Pool, Pc) -> bool, call: Call, v: Conduct, run: seq<State>, p: nat, n: nat)
    requires LoneRun(call, v, run, p) && n < |run| && inv(run[0].pool, run[0].procs[p])
    requires forall g, pc, g', pc' :: inv(g, pc) && LocalNext(call, v, g, pc, g', pc') ==> inv(g', pc')
    ensures p < |run[n].procs| && inv(run[n].pool, run[n].procs[p])
    ensures run[n].procs == run[0].procs[p := run[n].procs[p]]
  {
    if n > 0 {
      LoneKeeps(inv, call, v, run, p, n - 1);
      assert LoneNext(call, v, run[n - 1], run[n], p);
    }
  }

  // ----------------------------------------------------------- where calls wait and panic

  // Where a call receives from the channel without a way out, and where it sends.
  predicate Receives(pc: Pc, expires: bool) {
    (pc.Get? && pc.get == Fetch(true) && !expires) || (pc.Resize? && pc.resize.Drain? && pc.resize.todo > 0)
  }

  predicate Sends(pc: Pc) {
    || (pc.Get? && pc.get.Refill?)
    || (pc.Resize? && pc.resize.Fill? && pc.resize.todo > 0)
    || (pc.Sweep? && pc.sweep.Restore?)
  }

  predicate ClosesChannel(pc: Pc) {
    pc.Resize? && pc.resize == Drain(0, 0)
  }

  predicate Returns(pc: Pc) {
    pc.Put? && pc.put.Return?
  }

  /** A call under way waits if and only if it receives and nothing is queued, or sends and the
      channel is full; a Put and a closed channel never make it wait. */
  lemma WaitsIff(s: State, p: nat, c: Choice)
    requires Shape(s) && s.pool.fault == NoFault && p < |s.procs| && s.procs[p] != Idle
    ensures var g, pc := s.pool, s.procs[p];
      Step(s, p, c) == None <==>
        !g.closed && ((Receives(pc, c.Otherwise?) && g.queue == []) || (Sends(pc) && |g.queue| == g.maxCap))
  {
    assert PcOk(s.pool, s.procs[p]);
  }

  // Which panic a step from `pc` ends in, if any.
  ghost predicate Faults(g: Pool, pc: Pc, fault: Fault) {
    && (fault == SendOnClosed <==> g.closed && (Sends(pc) || Returns(pc)))
    && (fault == PutIntoFull <==> !g.closed && Returns(pc) && |g.queue| >= g.maxCap)
    && (fault == CloseOfClosed <==> g.closed && ClosesChannel(pc))
  }

  lemma ResizeFaults(g: Pool, pc: ResizePc)
    requires g.fault == NoFault && ResizeStep(g, pc).Some?
    ensures Faults(g, Resize(pc), ResizeStep(g, pc).value.pool.fault)
  {
  }

  lemma OtherFaults(g: Pool, pc: Pc, sweepRuns: bool, c: Choice)
    requires g.fault == NoFault && !pc.Resize? && LocalStep(g, pc, sweepRuns, c).Some?
    ensures Faults(g, pc, LocalStep(g, pc, sweepRuns, c).value.pool.fault)
  {
  }

  /** A step panics if and only if it sends or returns a resource on the closed channel, returns
      one into a full channel, or closes the channel again; each with its own panic. */
  lemma FaultsIff(s: State, p: nat, c: Choice)
    requires s.pool.fault == NoFault && Step(s, p, c).Some?
    ensures Faults(s.pool, s.procs[p], Step(s, p, c).value.pool.fault)
  {
    var pc := s.procs[p];
    if pc.Resize? { ResizeFaults(s.pool, pc.resize); } else { OtherFaults(s.pool, pc, SweepRuns(s.procs), c); }
  }

  /** A Get on a closed and empty channel fails at once; a Close waits for a running sweep. */
  lemma ClosedAndStopped(s: State, p: nat, c: Choice)
    requires s.pool.fault == NoFault && p < |s.procs|
    ensures s.procs[p].Get? && s.procs[p].get.Fetch? && s.pool.closed && s.pool.queue == [] ==>
      Step(s, p, c) == Some(s.(procs := s.procs[p := Idle]))
    ensures s.procs[p] == Idle ==>
      (Step(s, p, CallClose) == None <==> exists q :: 0 <= q < |s.procs| && s.procs[q].Sweep?)
  {
  }

  // ------------------------------------------------------------------------------- Get

  // The head of the queue is taken, and a resource made if it was empty.
  function Taken(g: Pool): Pool
    requires g.queue != []
  {
    g.(queue := g.queue[1..])
  }

  function Equipped(g: Pool): Pool
    requires g.queue != []
  {
    if g.queue[0].Live? then Taken(g) else Taken(g).(nextId := g.nextId + 1, active := g.active + 1)
  }

  function HandsOut(g: Pool): nat
    requires g.queue != []
  {
    if g.queue[0].Live? then g.queue[0].id else g.nextId
  }

  // Where a Get stands that began on pool g0.
  ghost predicate GetAt(v: Conduct, g0: Pool, g: Pool, pc: Pc) {
    match pc
    case Get(Fetch(_)) => g == g0
    case Get(Unwrap(w)) => g0.queue != [] && w == g0.queue[0] && g == Taken(g0)
    case Get(Refill) => g0.queue != [] && g0.queue[0] == Empty && !v.made && g == Taken(g0)
    case Get(BumpActive(id)) =>
      && g0.queue != [] && g0.queue[0] == Empty && v.made && id == g0.nextId
      && g == Taken(g0).(nextId := g0.nextId + 1)
    case Get(DropAvailable(id)) => Succeeds(v, g0) && id == HandsOut(g0) && g == Equipped(g0)
    case Get(BumpInUse(id)) =>
      Succeeds(v, g0) && id == HandsOut(g0) && g == Equipped(g0).(available := g0.available - 1)
    case _ => GetEnds(v, g0, g, pc)
  }

  predicate Succeeds(v: Conduct, g: Pool) {
    g.queue != [] && (g.queue[0].Live? || v.made)
  }

  /** How a Get ends: with the resource at the head of the queue, or a new one if the wrapper
      there is empty, moved from available to in use; with the empty wrapper back at the end
      when none can be made; or with nothing, if nothing is queued. */
  ghost predicate GetEnds(v: Conduct, g0: Pool, g: Pool, pc: Pc) {
    if Succeeds(v, g0) then
      && pc == Put(Holding(HandsOut(g0)))
      && g == Equipped(g0).(available := g0.available - 1, inUse := g0.inUse + 1)
    else if g0.queue != [] then pc == Idle && g == g0.(queue := g0.queue[1..] + [Empty])
    else pc == Idle && g == g0 && (g0.closed || !v.waits)
  }

  lemma GetGoesOn(v: Conduct, g0: Pool, g: Pool, pc: Pc, g': Pool, pc': Pc)
    requires GetAt(v, g0, g, pc) && LocalNext(InGet, v, g, pc, g', pc') && (g0.closed ==> g0.queue == [])
    ensures GetAt(v, g0, g', pc')
  {
  }

  /** A Get that runs alone on an open pool, or on a closed one without tokens. */
  lemma GetAlone(v: Conduct, run: seq<State>, p: nat)
    requires LoneRun(InGet, v, run, p) && run[0].procs[p] == Get(Fetch(false))
    requires run[0].pool.closed ==> run[0].pool.queue == []
    ensures p < |run[|run| - 1].procs|
    ensures var last := run[|run| - 1];
      !last.procs[p].Get? ==> GetEnds(v, run[0].pool, last.pool, last.procs[p])
  {
    var g0 := run[0].pool;
    forall g, pc, g', pc' | GetAt(v, g0, g, pc) && LocalNext(InGet, v, g, pc, g', pc') ensures GetAt(v, g0, g', pc') {
      GetGoesOn(v, g0, g, pc, g', pc');
    }
    LoneKeeps((g, pc) => GetAt(v, g0, g, pc), InGet, v, run, p, |run| - 1);
  }

  // ------------------------------------------------------------------------------- Put

  // The wrapper that comes back: empty if the client has closed the resource.
  function GivenBack(v: Conduct, id: nat): Wrapper {
    if v.nilPut then Empty else Live(id)
  }

  function Discarded(v: Conduct, g: Pool, id: nat): Pool {
    if v.nilPut then g.(dead := g.dead + {id}, active := g.active - 1) else g
  }

  ghost predicate PutAt(v: Conduct, id: nat, g0: Pool, g: Pool, pc: Pc) {
    var w, done := GivenBack(v, id), Discarded(v, g0, id);
    match pc
    case Put(Holding(i)) => i == id && g == g0
    case Put(DropActive) => v.nilPut && g == g0.(dead := g0.dead + {id})
    case Put(Return(x)) => x == w && g == done
    case Put(DropInUse) => g == done.(queue := g0.queue + [w])
    case Put(BumpAvailable) => g == done.(queue := g0.queue + [w], inUse := g0.inUse - 1)
    case _ => PutEnds(v, id, g0, g, pc)
  }

  /** How a Put ends: the wrapper is last in the queue, one less is in use and one more
      available; a resource the client closed is gone. */
  ghost predicate PutEnds(v: Conduct, id: nat, g0: Pool, g: Pool, pc: Pc) {
    && pc == Idle
    && g == Discarded(v, g0, id).(
         queue := g0.queue + [GivenBack(v, id)], inUse := g0.inUse - 1, available := g0.available + 1)
  }

  lemma PutGoesOn(v: Conduct, id: nat, g0: Pool, g: Pool, pc: Pc, g': Pool, pc': Pc)
    requires PutAt(v, id, g0, g, pc) && LocalNext(InPut, v, g, pc, g', pc') && !g0.closed && |g0.queue| < g0.maxCap
    ensures PutAt(v, id, g0, g', pc')
  {
  }

  lemma PutAlone(v: Conduct, run: seq<State>, p: nat, id: nat)
    requires LoneRun(InPut, v, run, p) && run[0].procs[p] == Put(Holding(id))
    requires !run[0].pool.closed && |run[0].pool.queue| < run[0].pool.maxCap
    ensures p < |run[|run| - 1].procs|
    ensures var last := run[|run| - 1];
      !last.procs[p].Put? ==> PutEnds(v, id, run[0].pool, last.pool, last.procs[p])
  {
    var g0 := run[0].pool;
    forall g, pc, g', pc' | PutAt(v, id, g0, g, pc) && LocalNext(InPut, v, g, pc, g', pc')
      ensures PutAt(v, id, g0, g', pc')
    {
      PutGoesOn(v, id, g0, g, pc, g', pc');
    }
    LoneKeeps((g, pc) => PutAt(v, id, g0, g, pc), InPut, v, run, p, |run| - 1);
  }

  // --------------------------------------------------------------------------- the sweep

  // A wrapper as the sweep puts it back: emptied if its resource has been idle too long.
  function Kept(v: Conduct, w: Wrapper): Wrapper {
    if w.Live? && v.expired(w.id) then Empty else w
  }

  function AllKept(v: Conduct, q: seq<Wrapper>): (r: seq<Wrapper>)
    ensures |r| == |q|
  {
    seq(|q|, i requires 0 <= i < |q| => Kept(v, q[i]))
  }

  predicate IsExpired(v: Conduct, w: Wrapper) {
    w.Live? && v.expired(w.id)
  }

  // The resources among the queued ones that have been idle too long, and their number.
  function Retiring(v: Conduct, q: seq<Wrapper>): set<nat> {
    if q == [] then {}
    else Retiring(v, q[..|q| - 1]) + if IsExpired(v, q[|q| - 1]) then {q[|q| - 1].id} else {}
  }

  lemma {:induction false} RetiringMeans(v: Conduct, q: seq<Wrapper>, id: nat)
    ensures id in Retiring(v, q) <==> Live(id) in q && v.expired(id)
  {
    if q != [] {
      RetiringMeans(v, q[..|q| - 1], id);
      assert q == q[..|q| - 1] + [q[|q| - 1]];
    }
  }

  function Retirements(v: Conduct, q: seq<Wrapper>): nat {
    if q == [] then 0 else Retirements(v, q[..|q| - 1]) + if IsExpired(v, q[|q| - 1]) then 1 else 0
  }

  // The pool after the sweep has dealt with the first k wrappers of its queue.
  function Swept(v: Conduct, g: Pool, k: nat): Pool
    requires k <= |g.queue|
  {
    var seen := g.queue[..k];
    g.(queue := g.queue[k..] + AllKept(v, seen), dead := g.dead + Retiring(v, seen),
       active := g.active - Retirements(v, seen))
  }

  // ... and has the next one in its hands.
  function Lifted(v: Conduct, g: Pool, k: nat): Pool
    requires k < |g.queue|
  {
    Swept(v, g, k).(queue := g.queue[k + 1..] + AllKept(v, g.queue[..k]))
  }

  ghost predicate SweepAt(v: Conduct, g0: Pool, size: nat, g: Pool, pc: Pc)
    requires size <= |g0.queue|
  {
    match pc
    case Sweep(Scan(left)) => 0 <= left <= size && g == Swept(v, g0, size - left)
    case Sweep(Check(w, left)) => 0 < left <= size && w == g0.queue[size - left] && g == Lifted(v, g0, size - left)
    case Sweep(Retired(left)) =>
      && 0 < left <= size && IsExpired(v, g0.queue[size - left])
      && g == Lifted(v, g0, size - left).(dead := Swept(v, g0, size - left + 1).dead)
    case Sweep(Restore(w, left, ok)) =>
      && 0 < left <= size && ok && w == Kept(v, g0.queue[size - left])
      && g == Swept(v, g0, size - left + 1).(queue := Lifted(v, g0, size - left).queue)
    case _ => pc == Idle && g == Swept(v, g0, size)
  }

  lemma OneMoreSwept(v: Conduct, g: Pool, k: nat)
    requires k < |g.queue|
    ensures Swept(v, g, k).queue != [] && Swept(v, g, k).queue[0] == g.queue[k]
    ensures Swept(v, g, k).queue[1..] == Lifted(v, g, k).queue
    ensures Swept(v, g, k + 1).queue == Lifted(v, g, k).queue + [Kept(v, g.queue[k])]
  {
    assert g.queue[..k + 1] == g.queue[..k] + [g.queue[k]];
    assert AllKept(v, g.queue[..k + 1]) == AllKept(v, g.queue[..k]) + [Kept(v, g.queue[k])];
    assert g.queue[k..] == [g.queue[k]] + g.queue[k + 1..];
  }

  lemma OneMoreCounted(v: Conduct, g: Pool, k: nat)
    requires k < |g.queue|
    ensures var w := g.queue[k];
      if IsExpired(v, w) then
        && Swept(v, g, k + 1).dead == Swept(v, g, k).dead + {w.id}
        && Swept(v, g, k + 1).active == Swept(v, g, k).active - 1
      else
        Swept(v, g, k + 1).dead == Swept(v, g, k).dead && Swept(v, g, k + 1).active == Swept(v, g, k).active
  {
    var seen, more := g.queue[..k], g.queue[..k + 1];
    assert more[..k] == seen && more[k] == g.queue[k];
  }

  lemma ScanGoesOn(v: Conduct, g0: Pool, size: nat, g: Pool, pc: Pc, g': Pool, pc': Pc)
    requires size <= |g0.queue| && SweepAt(v, g0, size, g, pc) && LocalNext(InSweep, v, g, pc, g', pc') && !g0.closed
    requires pc.sweep.Scan?
    ensures SweepAt(v, g0, size, g', pc')
  {
    if pc.sweep.left > 0 { OneMoreSwept(v, g0, size - pc.sweep.left); }
  }

  lemma CheckGoesOn(v: Conduct, g0: Pool, size: nat, g: Pool, pc: Pc, g': Pool, pc': Pc)
    requires size <= |g0.queue| && SweepAt(v, g0, size, g, pc) && LocalNext(InSweep, v, g, pc, g', pc') && !g0.closed
    requires pc.sweep.Check?
    ensures SweepAt(v, g0, size, g', pc')
  {
    OneMoreCounted(v, g0, size - pc.sweep.left);
  }

  lemma RetiredGoesOn(v: Conduct, g0: Pool, size: nat, g: Pool, pc: Pc, g': Pool, pc': Pc)
    requires size <= |g0.queue| && SweepAt(v, g0, size, g, pc) && LocalNext(InSweep, v, g, pc, g', pc') && !g0.closed
    requires pc.sweep.Retired?
    ensures SweepAt(v, g0, size, g', pc')
  {
    OneMoreCounted(v, g0, size - pc.sweep.left);
  }

  lemma RestoreGoesOn(v: Conduct, g0: Pool, size: nat, g: Pool, pc: Pc, g': Pool, pc': Pc)
    requires size <= |g0.queue| && SweepAt(v, g0, size, g, pc) && LocalNext(InSweep, v, g, pc, g', pc') && !g0.closed
    requires pc.sweep.Restore?
    ensures SweepAt(v, g0, size, g', pc')
  {
    OneMoreSwept(v, g0, size - pc.sweep.left);
  }

  lemma SweepGoesOn(v: Conduct, g0: Pool, size: nat, g: Pool, pc: Pc, g': Pool, pc': Pc)
    requires size <= |g0.queue| && SweepAt(v, g0, size, g, pc) && LocalNext(InSweep, v, g, pc, g', pc') && !g0.closed
    ensures SweepAt(v, g0, size, g', pc')
  {
    match pc.sweep {
      case Scan(_) => ScanGoesOn(v, g0, size, g, pc, g', pc');
      case Check(_, _) => CheckGoesOn(v, g0, size, g, pc, g', pc');
      case Retired(_) => RetiredGoesOn(v, g0, size, g, pc, g', pc');
      case Restore(_, _, _) => RestoreGoesOn(v, g0, size, g, pc, g', pc');
    }
  }

  lemma SweepAlone(v: Conduct, run: seq<State>, p: nat, size: nat)
    requires LoneRun(InSweep, v, run, p) && run[0].procs[p] == Sweep(Scan(size))
    requires !run[0].pool.closed && size <= |run[0].pool.queue|
    ensures p < |run[|run| - 1].procs|
    ensures var last := run[|run| - 1];
      !last.procs[p].Sweep? ==> last.procs[p] == Idle && last.pool == Swept(v, run[0].pool, size)
  {
    var g0 := run[0].pool;
    SweptNone(v, g0);
    forall g, pc, g', pc' | SweepAt(v, g0, size, g, pc) && LocalNext(InSweep, v, g, pc, g', pc')
      ensures SweepAt(v, g0, size, g', pc')
    {
      SweepGoesOn(v, g0, size, g, pc, g', pc');
    }
    LoneKeeps((g, pc) => SweepAt(v, g0, size, g, pc), InSweep, v, run, p, |run| - 1);
  }

  lemma SweptNone(v: Conduct, g: Pool)
    ensures Swept(v, g, 0) == g
  {
    assert g.queue[0..] + AllKept(v, []) == g.queue && g.queue[..0] == [];
  }

  // ------------------------------------------------------- the sweep of a quiet pool

  lemma {:induction false} AllRetired(v: Conduct, q: seq<Wrapper>)
    requires forall id :: v.expired(id)
    ensures LiveCount(AllKept(v, q)) == 0 && Retirements(v, q) == LiveCount(q)
  {
    if q != [] {
      var front := q[..|q| - 1];
      AllRetired(v, front);
      assert Kept(v, q[|q| - 1]) == Empty;
      assert q == front + [q[|q| - 1]] && AllKept(v, q) == AllKept(v, front) + [Empty];
      LiveCountAppend(front, q[|q| - 1]);
      LiveCountAppend(AllKept(v, front), Empty);
    }
  }

  lemma {:induction false} NoneRetired(v: Conduct, q: seq<Wrapper>)
    requires forall id :: !v.expired(id)
    ensures AllKept(v, q) == q && Retirements(v, q) == 0 && Retiring(v, q) == {}
  {
    if q != [] { NoneRetired(v, q[..|q| - 1]); }
  }

  lemma {:induction false} QueuedIsOnce(q: seq<Wrapper>, id: nat)
    ensures Live(id) in q ==> Occurs(q, id) >= 1
  {
    if q != [] { QueuedIsOnce(q[1..], id); }
  }

  // A sweep that runs alone, called on a pool with no call in flight.
  ghost predicate SweepsQuietly(v: Conduct, s: State, run: seq<State>, p: nat) {
    && Shape(s) && Ledger(s) && Quiet(s) && !s.pool.closed && s.pool.fault == NoFault
    && p < |s.procs| && s.procs[p] == Idle && LoneRun(InSweep, v, run, p) && Step(s, p, CallSweep) == Some(run[0])
  }

  /** A sweep of a pool with no call in flight closes exactly the queued resources that have
      been idle too long, leaves every wrapper in its place, emptied if its resource was closed,
      and takes the closed ones off the active count. */
  lemma SweepOfQuietPool(v: Conduct, s: State, run: seq<State>, p: nat)
    requires SweepsQuietly(v, s, run, p)
    ensures p < |run[|run| - 1].procs|
    ensures var g, last := s.pool, run[|run| - 1];
      !last.procs[p].Sweep? ==>
        && last.procs == s.procs
        && last.pool == g.(queue := last.pool.queue, dead := last.pool.dead, active := last.pool.active)
        && last.pool.queue == AllKept(v, g.queue) && last.pool.active == g.active - Retirements(v, g.queue)
        && g.dead <= last.pool.dead
        && forall id :: id in last.pool.dead && id !in g.dead <==> Live(id) in g.queue && v.expired(id)
  {
    QuietCounters(s);
    var g, last := s.pool, run[|run| - 1];
    SweepAlone(v, run, p, |g.queue|);
    LoneProcs(InSweep, v, run, p, |run| - 1);
    if !last.procs[p].Sweep? {
      assert g.queue[..|g.queue|] == g.queue && g.queue[|g.queue|..] + AllKept(v, g.queue) == AllKept(v, g.queue);
      forall id ensures id in last.pool.dead && id !in g.dead <==> Live(id) in g.queue && v.expired(id) {
        QueuedIsAlive(s, id);
        RetiringMeans(v, g.queue, id);
      }
      assert s.procs[p := Idle] == s.procs;
    }
  }

  lemma QueuedIsAlive(s: State, id: nat)
    requires Ledger(s)
    ensures Live(id) in s.pool.queue ==> id !in s.pool.dead
  {
    QueuedIsOnce(s.pool.queue, id);
    SumNonNegative(Owner(id), s.procs);
    assert Occurs(s.pool.queue, id) + Sum(Owner(id), s.procs) == Bit(Alive(s.pool, id));
  }

  lemma {:induction false} LoneProcs(call: Call, v: Conduct, run: seq<State>, p: nat, n: nat)
    requires LoneRun(call, v, run, p) && n < |run|
    ensures p < |run[n].procs| && run[n].procs == run[0].procs[p := run[n].procs[p]]
  {
    LoneKeeps((g, pc) => true, call, v, run, p, n);
  }

  /** If all are idle too long no live resource stays queued and the active ones are those in
      use; if none is, nothing changes. */
  lemma SweepAllOrNone(v: Conduct, s: State, run: seq<State>, p: nat)
    requires SweepsQuietly(v, s, run, p)
    ensures p < |run[|run| - 1].procs|
    ensures !run[|run| - 1].procs[p].Sweep? && (forall id :: v.expired(id)) ==>
      && LiveCount(run[|run| - 1].pool.queue) == 0 && run[|run| - 1].pool.active == s.pool.inUse
      && |run[|run| - 1].pool.queue| == |s.pool.queue|
    ensures !run[|run| - 1].procs[p].Sweep? && (forall id :: !v.expired(id)) ==> run[|run| - 1] == s
  {
    SweepOfQuietPool(v, s, run, p);
    QuietCounters(s);
    if forall id :: v.expired(id) { AllRetired(v, s.pool.queue); }
    if forall id :: !v.expired(id) {
      NoneRetired(v, s.pool.queue);
      assert run[|run| - 1].procs[p].Sweep? || run[|run| - 1].pool.dead == s.pool.dead;
    }
  }

  // ----------------------------------------------------------------------- SetCapacity

  function LiveIds(q: seq<Wrapper>): set<nat> {
    if q == [] then {} else LiveIds(q[..|q| - 1]) + if q[|q| - 1].Live? then {q[|q| - 1].id} else {}
  }

  lemma {:induction false} LiveIdsMean(q: seq<Wrapper>, id: nat)
    ensures id in LiveIds(q) <==> Live(id) in q
  {
    if q != [] {
      LiveIdsMean(q[..|q| - 1], id);
      assert q == q[..|q| - 1] + [q[|q| - 1]];
    }
  }

  // The pool after a shrink to `target` has taken k wrappers out and closed what they held.
  function Shrunk(g: Pool, target: nat, k: nat): Pool
    requires k <= |g.queue|
  {
    g.(capacity := target, queue := g.queue[k..], available := g.available - k,
       dead := g.dead + LiveIds(g.queue[..k]), active := g.active - LiveCount(g.queue[..k]))
  }

  function Grown(g: Pool, target: nat, k: nat): Pool {
    g.(capacity := target, queue := g.queue + Repeat(Empty, k), available := g.available + k)
  }

  /** How SetCapacity ends: at once on a closed pool or one of that size already; or with that
      many wrappers fewer, from the front of the queue and their resources closed, or that many
      empty ones more at its end; taking the pool to zero closes it. */
  ghost predicate ResizeEnds(target: nat, g0: Pool, g: Pool, pc: Pc) {
    && pc == Idle
    && if g0.capacity == 0 || g0.capacity == target then g == g0
       else if target < g0.capacity then
         var k := g0.capacity - target;
         k <= |g0.queue| && g == Shrunk(g0, target, k).(closed := target == 0)
       else g == Grown(g0, target, target - g0.capacity)
  }

  ghost predicate ShrinkAt(target: nat, g0: Pool, g: Pool, pc: ResizePc) {
    && target < g0.capacity && pc.target == target
    && match pc
       case Drain(_, todo) =>
         var k := g0.capacity - target - todo;
         0 <= k <= |g0.queue| && g == Shrunk(g0, target, k)
       case Drained(w, _, todo) =>
         var k := g0.capacity - target - todo;
         0 <= k < |g0.queue| && w == g0.queue[k] && todo > 0 && g == Shrunk(g0, target, k).(queue := g0.queue[k + 1..])
       case DrainedLive(_, todo) =>
         var k := g0.capacity - target - todo;
         && 0 <= k < |g0.queue| && g0.queue[k].Live? && todo > 0
         && g == Shrunk(g0, target, k).(queue := g0.queue[k + 1..], dead := Shrunk(g0, target, k + 1).dead)
       case DrainedEmpty(_, todo) =>
         var k := g0.capacity - target - todo;
         0 <= k < |g0.queue| && todo > 0 && g == Shrunk(g0, target, k + 1).(available := g0.available - k)
       case _ => false
  }

  ghost predicate GrowAt(target: nat, g0: Pool, g: Pool, pc: ResizePc) {
    && g0.capacity < target && pc.target == target
    && match pc
       case Fill(_, todo) =>
         var k := target - g0.capacity - todo;
         0 <= k && g == Grown(g0, target, k)
       case Filled(_, todo) =>
         var k := target - g0.capacity - todo;
         0 <= k && todo > 0 && g == Grown(g0, target, k + 1).(available := g0.available + k)
       case _ => false
  }

  ghost predicate ResizeAt(target: nat, g0: Pool, g: Pool, pc: Pc) {
    if !pc.Resize? then ResizeEnds(target, g0, g, pc)
    else if pc.resize.Load? then pc.resize.target == target && g == g0
    else if pc.resize.Cas? then
      pc.resize.target == target != g0.capacity && pc.resize.seen == g0.capacity > 0 && g == g0
    else g0.capacity > 0 && (ShrinkAt(target, g0, g, pc.resize) || GrowAt(target, g0, g, pc.resize))
  }

  lemma OneMoreTaken(g: Pool, target: nat, k: nat)
    requires k < |g.queue|
    ensures g.queue[k..] != [] && g.queue[k..][0] == g.queue[k] && g.queue[k..][1..] == g.queue[k + 1..]
    ensures var w := g.queue[k];
      && Shrunk(g, target, k + 1).dead == Shrunk(g, target, k).dead + (if w.Live? then {w.id} else {})
      && Shrunk(g, target, k + 1).active == Shrunk(g, target, k).active - Bit(w.Live?)
  {
    var seen, more := g.queue[..k], g.queue[..k + 1];
    assert more == seen + [g.queue[k]] && more[..k] == seen && more[k] == g.queue[k];
    LiveCountAppend(seen, g.queue[k]);
  }

  lemma TakenNone(g: Pool, target: nat)
    ensures Shrunk(g, target, 0) == g.(capacity := target) == Grown(g, target, 0)
  {
    assert g.queue[..0] == [] && g.queue[0..] == g.queue && g.queue + [] == g.queue;
    assert Repeat<Wrapper>(Empty, 0) == [];
  }

  lemma StartGoesOn(target: nat, v: Conduct, g0: Pool, g: Pool, pc: Pc, g': Pool, pc': Pc)
    requires ResizeAt(target, g0, g, pc) && LocalNext(InResize, v, g, pc, g', pc')
    requires pc.resize.Load? || pc.resize.Cas?
    ensures ResizeAt(target, g0, g', pc')
  {
    TakenNone(g0, target);
  }

  lemma DrainGoesOn(target: nat, g0: Pool, g: Pool, pc: ResizePc, g': Pool, pc': Pc)
    requires pc.Drain? && ShrinkAt(target, g0, g, pc) && ResizeStep(g, pc) == Some(Local(g', pc')) && !g0.closed
    ensures if pc'.Resize? then ShrinkAt(target, g0, g', pc'.resize) else ResizeEnds(target, g0, g', pc')
  {
    var k := g0.capacity - target - pc.todo;
    if k < |g0.queue| { OneMoreTaken(g0, target, k); }
  }

  lemma OutGoesOn(target: nat, g0: Pool, g: Pool, pc: ResizePc, g': Pool, pc': Pc)
    requires pc.Drained? && ShrinkAt(target, g0, g, pc) && ResizeStep(g, pc) == Some(Local(g', pc'))
    ensures pc'.Resize? && ShrinkAt(target, g0, g', pc'.resize)
  {
    OneMoreTaken(g0, target, g0.capacity - target - pc.todo);
  }

  lemma ClosedGoesOn(target: nat, g0: Pool, g: Pool, pc: ResizePc, g': Pool, pc': Pc)
    requires pc.DrainedLive? && ShrinkAt(target, g0, g, pc) && ResizeStep(g, pc) == Some(Local(g', pc'))
    ensures pc'.Resize? && ShrinkAt(target, g0, g', pc'.resize)
  {
    OneMoreTaken(g0, target, g0.capacity - target - pc.todo);
  }

  lemma CountedGoesOn(target: nat, g0: Pool, g: Pool, pc: ResizePc, g': Pool, pc': Pc)
    requires pc.DrainedEmpty? && ShrinkAt(target, g0, g, pc) && ResizeStep(g, pc) == Some(Local(g', pc'))
    ensures pc'.Resize? && ShrinkAt(target, g0, g', pc'.resize)
  {
    OneMoreTaken(g0, target, g0.capacity - target - pc.todo);
  }

  lemma ShrinkGoesOn(target: nat, v: Conduct, g0: Pool, g: Pool, pc: Pc, g': Pool, pc': Pc)
    requires pc.Resize? && ShrinkAt(target, g0, g, pc.resize) && LocalNext(InResize, v, g, pc, g', pc') && !g0.closed
    ensures if pc'.Resize? then ShrinkAt(target, g0, g', pc'.resize) else ResizeEnds(target, g0, g', pc')
  {
    match pc.resize {
      case Drain(_, _) => DrainGoesOn(target, g0, g, pc.resize, g', pc');
      case Drained(_, _, _) => OutGoesOn(target, g0, g, pc.resize, g', pc');
      case DrainedLive(_, _) => ClosedGoesOn(target, g0, g, pc.resize, g', pc');
      case DrainedEmpty(_, _) => CountedGoesOn(target, g0, g, pc.resize, g', pc');
    }
  }

  lemma GrowGoesOn(target: nat, v: Conduct, g0: Pool, g: Pool, pc: Pc, g': Pool, pc': Pc)
    requires pc.Resize? && GrowAt(target, g0, g, pc.resize) && LocalNext(InResize, v, g, pc, g', pc')
    requires !g0.closed && g0.capacity > 0
    ensures if pc'.Resize? then GrowAt(target, g0, g', pc'.resize) else ResizeEnds(target, g0, g', pc')
  {
    var k := target - g0.capacity - pc.resize.todo;
    assert g0.queue + Repeat(Empty, k) + [Empty] == g0.queue + Repeat(Empty, k + 1);
  }

  lemma ResizeGoesOn(target: nat, v: Conduct, g0: Pool, g: Pool, pc: Pc, g': Pool, pc': Pc)
    requires ResizeAt(target, g0, g, pc) && LocalNext(InResize, v, g, pc, g', pc') && (g0.closed ==> g0.capacity == 0)
    ensures ResizeAt(target, g0, g', pc')
  {
    if pc.resize.Load? || pc.resize.Cas? {
      StartGoesOn(target, v, g0, g, pc, g', pc');
    } else if ShrinkAt(target, g0, g, pc.resize) {
      ShrinkGoesOn(target, v, g0, g, pc, g', pc');
    } else {
      GrowGoesOn(target, v, g0, g, pc, g', pc');
    }
  }

  lemma ResizeAlone(v: Conduct, run: seq<State>, p: nat, target: nat)
    requires LoneRun(InResize, v, run, p) && run[0].procs[p] == Resize(Load(target))
    requires run[0].pool.closed ==> run[0].pool.capacity == 0
    ensures p < |run[|run| - 1].procs|
    ensures var last := run[|run| - 1];
      !last.procs[p].Resize? ==> ResizeEnds(target, run[0].pool, last.pool, last.procs[p])
  {
    var g0 := run[0].pool;
    forall g, pc, g', pc' | ResizeAt(target, g0, g, pc) && LocalNext(InResize, v, g, pc, g', pc')
      ensures ResizeAt(target, g0, g', pc')
    {
      ResizeGoesOn(target, v, g0, g, pc, g', pc');
    }
    LoneKeeps((g, pc) => ResizeAt(target, g0, g, pc), InResize, v, run, p, |run| - 1);
  }

  // A Close that runs alone, called on an open pool with no call in flight.
  ghost predicate ClosesQuietly(v: Conduct, s: State, run: seq<State>, p: nat) {
    && Shape(s) && Ledger(s) && Quiet(s) && !s.pool.closed && 0 < s.pool.capacity && s.pool.fault == NoFault
    && p < |s.procs| && s.procs[p] == Idle && LoneRun(InResize, v, run, p) && Step(s, p, CallClose) == Some(run[0])
  }

  /** A Close of a pool with no call in flight returns only if nothing is in use.  Then it has
      stopped the sweep, closed the channel and every resource, and all counters are 0. */
  lemma CloseOfQuietPool(v: Conduct, s: State, run: seq<State>, p: nat)
    requires ClosesQuietly(v, s, run, p)
    ensures p < |run[|run| - 1].procs|
    ensures var g, last := s.pool, run[|run| - 1];
      !last.procs[p].Resize? ==>
        && g.inUse == 0 && last.procs == s.procs
        && last.pool == g.(capacity := 0, available := 0, active := 0, queue := [], closed := true,
                           sweepStopped := true, dead := last.pool.dead)
        && g.dead <= last.pool.dead
        && forall id :: id in last.pool.dead && id !in g.dead <==> Live(id) in g.queue
  {
    QuietCounters(s);
    var g, last := s.pool, run[|run| - 1];
    ResizeAlone(v, run, p, 0);
    LoneProcs(InResize, v, run, p, |run| - 1);
    if !last.procs[p].Resize? {
      SumNonNegative(InUse, s.procs);
      assert g.queue[..g.capacity] == g.queue && s.procs[p := Idle] == s.procs;
      forall id ensures id in last.pool.dead && id !in g.dead <==> Live(id) in g.queue {
        QueuedIsAlive(s, id);
        LiveIdsMean(g.queue, id);
      }
    }
  }
}
