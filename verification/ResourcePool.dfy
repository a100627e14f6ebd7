/** The token-channel resource pool as an interleaved step system.

Every call in flight is a process with a program counter; one step is one atomic
operation of the original: a channel send or receive, a counter update, a
compare-and-swap.  A token is a wrapper travelling through the channel; it may carry
a live resource or be empty.  Any number of processes take part, each making one call
after another.
 */
module ResourcePool {
  import opened Common

  datatype Wrapper = Empty | Live(id: nat)

  datatype GetPc =
    | Fetch(waiting: bool)
    | Unwrap(w: Wrapper)
    | Refill
    | BumpActive(id: nat)
    | DropAvailable(id: nat)
    | BumpInUse(id: nat)

  // Holding is the client's time between a successful Get and its Put.
  datatype PutPc =
    | Holding(id: nat)
    | DropActive
    | Return(w: Wrapper)
    | DropInUse
    | BumpAvailable

  // `todo` counts the iterations of the drain or fill loop still to finish.
  datatype ResizePc =
    | Load(target: nat)
    | Cas(target: nat, seen: nat)
    | Drain(target: nat, todo: nat)
    | Drained(w: Wrapper, target: nat, todo: nat)
    | DrainedLive(target: nat, todo: nat)
    | DrainedEmpty(target: nat, todo: nat)
    | Fill(target: nat, todo: nat)
    | Filled(target: nat, todo: nat)

  // `ok` is the receive's second result, which closeIdleResources drops.
  datatype SweepPc =
    | Scan(left: int)
    | Check(w: Wrapper, left: int)
    | Retired(left: int)
    | Restore(w: Wrapper, left: int, ok: bool)

  datatype Pc = Idle | Get(get: GetPc) | Put(put: PutPc) | Resize(resize: ResizePc) | Sweep(sweep: SweepPc)

  datatype Fault = NoFault | PutIntoFull | SendOnClosed | CloseOfClosed

  // The fields of the pool, and beside them the resources ever made and closed.
  datatype Pool = Pool(
    maxCap: nat,
    queue: seq<Wrapper>,
    closed: bool,
    capacity: nat,
    available: int,
    active: int,
    inUse: int,
    sweepStopped: bool,
    nextId: nat,
    dead: set<nat>,
    fault: Fault)

  datatype State = State(pool: Pool, procs: seq<Pc>)

  // What the environment decides at a step: which call an idle process makes,
  // whether the factory succeeds, whether a context expires, and so on.
  datatype Choice = CallGet | CallResize(capacity: int) | CallClose | CallSweep | Proceed | Otherwise

  // The pool after a step and where the stepping process then stands.
  datatype Local = Local(pool: Pool, pc: Pc)

  function Repeat<T>(x: T, n: nat): (r: seq<T>)
    ensures |r| == n && forall i :: 0 <= i < n ==> r[i] == x
  {
    seq(n, _ => x)
  }

  /** The pool NewResourcePool builds, with `n` processes that have made no call yet. */
  function Fresh(capacity: nat, maxCap: nat, n: nat): State {
    State(
      Pool(maxCap, Repeat(Empty, capacity), false, capacity, capacity, 0, 0, false, 0, {}, NoFault),
      Repeat(Idle, n))
  }

  ghost predicate Init(s: State) {
    && 0 < s.pool.capacity <= s.pool.maxCap
    && s == Fresh(s.pool.capacity, s.pool.maxCap, |s.procs|)
  }

  // A blocking send: waits while the channel is full, panics once it is closed.
  function Send(g: Pool, w: Wrapper, here: Pc, next: Pc): Option<Local> {
    if g.closed then Some(Local(g.(fault := SendOnClosed), here))
    else if |g.queue| < g.maxCap then Some(Local(g.(queue := g.queue + [w]), next))
    else None
  }

  // An idle process makes a call.  CallClose is Close: the idle timer is stopped,
  // which waits for a running sweep, and then SetCapacity(0) starts.
  function StartStep(g: Pool, sweepRuns: bool, c: Choice): Option<Local> {
    match c
    case CallGet => Some(Local(g, Get(Fetch(false))))
    case CallResize(capacity) =>
      Some(Local(g, if 0 <= capacity <= g.maxCap then Resize(Load(capacity)) else Idle))
    case CallClose => if sweepRuns then None else Some(Local(g.(sweepStopped := true), Resize(Load(0))))
    case CallSweep => if g.sweepStopped then None else Some(Local(g, Sweep(Scan(g.available))))
    case _ => None
  }

  function GetStep(g: Pool, pc: GetPc, c: Choice): Option<Local> {
    match pc
    case Fetch(waiting) =>
      if waiting && c.Otherwise? then Some(Local(g, Idle))                                // context expired
      else if g.queue != [] then Some(Local(g.(queue := g.queue[1..]), Get(Unwrap(g.queue[0]))))
      else if g.closed then Some(Local(g, Idle))                                          // ErrClosed
      else if waiting then None
      else Some(Local(g, if c.Otherwise? then Idle else Get(Fetch(true))))                // Idle: does not wait
    case Unwrap(w) =>
      if w.Live? then Some(Local(g, Get(DropAvailable(w.id))))
      else if c.Otherwise? then Some(Local(g, Get(Refill)))                               // factory failed
      else Some(Local(g.(nextId := g.nextId + 1), Get(BumpActive(g.nextId))))
    case Refill => Send(g, Empty, Get(pc), Idle)
    case BumpActive(id) => Some(Local(g.(active := g.active + 1), Get(DropAvailable(id))))
    case DropAvailable(id) => Some(Local(g.(available := g.available - 1), Get(BumpInUse(id))))
    case BumpInUse(id) => Some(Local(g.(inUse := g.inUse + 1), Put(Holding(id))))
  }

  // Otherwise at Holding is Put(nil): the client has closed the resource.
  function PutStep(g: Pool, pc: PutPc, c: Choice): Option<Local> {
    match pc
    case Holding(id) =>
      if c.Otherwise? then Some(Local(g.(dead := g.dead + {id}), Put(DropActive)))
      else Some(Local(g, Put(Return(Live(id)))))
    case DropActive => Some(Local(g.(active := g.active - 1), Put(Return(Empty))))
    case Return(w) =>
      if !g.closed && |g.queue| >= g.maxCap then Some(Local(g.(fault := PutIntoFull), Put(pc)))
      else Send(g, w, Put(pc), Put(DropInUse))
    case DropInUse => Some(Local(g.(inUse := g.inUse - 1), Put(BumpAvailable)))
    case BumpAvailable => Some(Local(g.(available := g.available + 1), Idle))
  }

  function ResizeStep(g: Pool, pc: ResizePc): Option<Local> {
    match pc
    case Load(target) =>
      Some(Local(g, if g.capacity == 0 || g.capacity == target then Idle else Resize(Cas(target, g.capacity))))
    case Cas(target, seen) =>
      if g.capacity != seen then Some(Local(g, Resize(Load(target))))
      else if target < seen then Some(Local(g.(capacity := target), Resize(Drain(target, seen - target))))
      else Some(Local(g.(capacity := target), Resize(Fill(target, target - seen))))
    case Drain(target, todo) =>
      if todo == 0 then
        if target != 0 then Some(Local(g, Idle))
        else if g.closed then Some(Local(g.(fault := CloseOfClosed), Resize(pc)))
        else Some(Local(g.(closed := true), Idle))
      else if g.queue != [] then Some(Local(g.(queue := g.queue[1..]), Resize(Drained(g.queue[0], target, todo))))
      else if g.closed then Some(Local(g, Resize(Drained(Empty, target, todo))))
      else None
    case Drained(w, target, todo) =>
      if w.Live? then Some(Local(g.(dead := g.dead + {w.id}), Resize(DrainedLive(target, todo))))
      else Some(Local(g, Resize(DrainedEmpty(target, todo))))
    case DrainedLive(target, todo) => Some(Local(g.(active := g.active - 1), Resize(DrainedEmpty(target, todo))))
    case DrainedEmpty(target, todo) =>
      if todo == 0 then None else Some(Local(g.(available := g.available - 1), Resize(Drain(target, todo - 1))))
    case Fill(target, todo) =>
      if todo == 0 then Some(Local(g, Idle)) else Send(g, Empty, Resize(pc), Resize(Filled(target, todo)))
    case Filled(target, todo) =>
      if todo == 0 then None else Some(Local(g.(available := g.available + 1), Resize(Fill(target, todo - 1))))
  }

  // Otherwise at Check: the resource has been idle for too long.
  function SweepStep(g: Pool, pc: SweepPc, c: Choice): Option<Local> {
    match pc
    case Scan(left) =>
      if left <= 0 then Some(Local(g, Idle))
      else if g.queue != [] then Some(Local(g.(queue := g.queue[1..]), Sweep(Check(g.queue[0], left))))
      else if g.closed then Some(Local(g, Sweep(Restore(Empty, left, false))))
      else Some(Local(g, Idle))
    case Check(w, left) =>
      if w.Live? && c.Otherwise? then Some(Local(g.(dead := g.dead + {w.id}), Sweep(Retired(left))))
      else Some(Local(g, Sweep(Restore(w, left, true))))
    case Retired(left) => Some(Local(g.(active := g.active - 1), Sweep(Restore(Empty, left, true))))
    case Restore(w, left, _) => Send(g, w, Sweep(pc), Sweep(Scan(left - 1)))
  }

  function LocalStep(g: Pool, pc: Pc, sweepRuns: bool, c: Choice): Option<Local> {
    match pc
    case Idle => StartStep(g, sweepRuns, c)
    case Get(get) => GetStep(g, get, c)
    case Put(put) => PutStep(g, put, c)
    case Resize(resize) => ResizeStep(g, resize)
    case Sweep(sweep) => SweepStep(g, sweep, c)
  }

  function SweepRuns(procs: seq<Pc>): bool {
    exists q :: 0 <= q < |procs| && procs[q].Sweep?
  }

  /** One step of process `p`; None when it has to wait.  A panic ends the run. */
  function Step(s: State, p: nat, c: Choice): Option<State> {
    if p >= |s.procs| || s.pool.fault != NoFault then None
    else match LocalStep(s.pool, s.procs[p], SweepRuns(s.procs), c)
      case None => None
      case Some(l) => Some(State(l.pool, s.procs[p := l.pc]))
  }

  ghost predicate Next(s: State, s': State) {
    exists p: nat, c: Choice :: Step(s, p, c) == Some(s')
  }

  /** A run: every state follows from the one before by one step of some process. */
  ghost predicate IsRun(run: seq<State>) {
    && run != []
    && forall i :: 0 < i < |run| ==> Next(run[i - 1], run[i])
  }

  // ------------------------------------------------------------------ measures

  function Bit(b: bool): int { if b then 1 else 0 }

  // What a process standing at a program point contributes to the pool's books.
  datatype Profile = Profile(
    tokens: int,          // tokens in its hands
    drain: int,           // tokens it has still to take out of circulation
    fill: int,            // tokens it has still to put into circulation
    lag: int,             // how far its pending update keeps `available` from the queue length
    inUse: int,
    active: int,
    owner: Option<nat>,   // the live resource in its hands
    resizing: int,        // 1 inside SetCapacity
    moving: int,          // 1 inside a drain or fill loop
    toZero: int,          // 1 while draining the pool down to nothing
    sweeping: int)

  function OwnerOf(w: Wrapper): Option<nat> {
    if w.Live? then Some(w.id) else None
  }

  function ClientProfile(tokens: int, lag: int, inUse: int, active: int, owner: Option<nat>): Profile {
    Profile(tokens, 0, 0, lag, inUse, active, owner, 0, 0, 0, 0)
  }

  function DrainProfile(target: nat, drain: int, lag: int, active: int, owner: Option<nat>): Profile {
    Profile(0, drain, 0, lag, 0, active, owner, 1, 1, Bit(target == 0), 0)
  }

  function FillProfile(fill: int, lag: int): Profile {
    Profile(0, 0, fill, lag, 0, 0, None, 1, 1, 0, 0)
  }

  function SweepProfile(tokens: int, active: int, owner: Option<nat>): Profile {
    Profile(tokens, 0, 0, tokens, 0, active, owner, 0, 0, 0, 1)
  }

  function GetContribution(pc: GetPc): Profile {
    match pc
    case Fetch(_) => ClientProfile(0, 0, 0, 0, None)
    case Unwrap(w) => ClientProfile(1, 1, 0, Bit(w.Live?), OwnerOf(w))
    case Refill => ClientProfile(1, 1, 0, 0, None)
    case BumpActive(id) => ClientProfile(1, 1, 0, 0, Some(id))
    case DropAvailable(id) => ClientProfile(1, 1, 0, 1, Some(id))
    case BumpInUse(id) => ClientProfile(1, 0, 0, 1, Some(id))
  }

  function PutContribution(pc: PutPc): Profile {
    match pc
    case Holding(id) => ClientProfile(1, 0, 1, 1, Some(id))
    case DropActive => ClientProfile(1, 0, 1, 1, None)
    case Return(w) => ClientProfile(1, 0, 1, Bit(w.Live?), OwnerOf(w))
    case DropInUse => ClientProfile(0, -1, 1, 0, None)
    case BumpAvailable => ClientProfile(0, -1, 0, 0, None)
  }

  function ResizeContribution(pc: ResizePc): Profile {
    match pc
    case Load(_) | Cas(_, _) => Profile(0, 0, 0, 0, 0, 0, None, 1, 0, 0, 0)
    case Drain(target, todo) => DrainProfile(target, todo, 0, 0, None)
    case Drained(w, target, todo) => DrainProfile(target, todo - 1, 1, Bit(w.Live?), OwnerOf(w))
    case DrainedLive(target, todo) => DrainProfile(target, todo - 1, 1, 1, None)
    case DrainedEmpty(target, todo) => DrainProfile(target, todo - 1, 1, 0, None)
    case Fill(_, todo) => FillProfile(todo, 0)
    case Filled(_, todo) => FillProfile(todo - 1, -1)
  }

  function SweepContribution(pc: SweepPc): Profile {
    match pc
    case Scan(_) => SweepProfile(0, 0, None)
    case Check(w, _) => SweepProfile(1, Bit(w.Live?), OwnerOf(w))
    case Retired(_) => SweepProfile(1, 1, None)
    case Restore(w, _, ok) => SweepProfile(Bit(ok), Bit(w.Live?), OwnerOf(w))
  }

  function Contribution(pc: Pc): Profile {
    match pc
    case Idle => ClientProfile(0, 0, 0, 0, None)
    case Get(get) => GetContribution(get)
    case Put(put) => PutContribution(put)
    case Resize(resize) => ResizeContribution(resize)
    case Sweep(sweep) => SweepContribution(sweep)
  }

  // 1 for a process whose token can come back only through a Put that has not begun: a
  // client with a resource, or a Get that is bound to hand one out.
  function PinnedBy(pc: Pc): int {
    match pc
    case Get(Unwrap(w)) => Bit(w.Live?)
    case Get(BumpActive(_)) => 1
    case Get(DropAvailable(_)) => 1
    case Get(BumpInUse(_)) => 1
    case Put(Holding(_)) => 1
    case _ => 0
  }

  // How many steps such a process needs at best to give back a token that is not pinned.
  function DetourOf(pc: Pc): int {
    match pc
    case Get(Unwrap(w)) => if w.Live? then 0 else 2
    case Get(Refill) => 1
    case Put(DropActive) => 2
    case Put(Return(_)) => 1
    case Sweep(Check(_, _)) => 2
    case Sweep(Retired(_)) => 2
    case Sweep(Restore(_, _, ok)) => Bit(ok)
    case _ => 0
  }

  // ... and to give back any token, once the mutex is free.
  function HomingOf(pc: Pc): int {
    match pc
    case Get(Unwrap(w)) => if w.Live? then 5 else 2
    case Get(Refill) => 1
    case Get(BumpActive(_)) => 5
    case Get(DropAvailable(_)) => 4
    case Get(BumpInUse(_)) => 3
    case Put(Holding(_)) => 2
    case Put(DropActive) => 2
    case Put(Return(_)) => 1
    case _ => 0
  }

  // How many steps a sweep needs at most to end while the channel is open.
  function RoundsOf(pc: Pc): int {
    match pc
    case Sweep(Scan(left)) => ScanSteps(left)
    case Sweep(Check(_, left)) => ScanSteps(left - 1) + 2
    case Sweep(Retired(left)) => ScanSteps(left - 1) + 2
    case Sweep(Restore(_, left, _)) => ScanSteps(left - 1) + 1
    case _ => 0
  }

  function ScanSteps(left: int): int {
    if left <= 0 then 1 else 3 * left + 1
  }

  datatype Measure =
    | Tokens | ToDrain | ToFill | AvailLag | InUse | Active | Owner(id: nat)
    | Resizing | Moving | ToZero | Sweeping | Pinned | Detour | Homing | Rounds

  function Weight(m: Measure, pc: Pc): int {
    var row := Contribution(pc);
    match m
    case Tokens => row.tokens
    case ToDrain => row.drain
    case ToFill => row.fill
    case AvailLag => row.lag
    case InUse => row.inUse
    case Active => row.active
    case Owner(id) => Bit(row.owner == Some(id))
    case Resizing => row.resizing
    case Moving => row.moving
    case ToZero => row.toZero
    case Sweeping => row.sweeping
    case Pinned => PinnedBy(pc)
    case Detour => DetourOf(pc)
    case Homing => HomingOf(pc)
    case Rounds => RoundsOf(pc)
  }

  function Sum(m: Measure, procs: seq<Pc>): int {
    if procs == [] then 0 else Weight(m, procs[0]) + Sum(m, procs[1..])
  }

  function LiveCount(q: seq<Wrapper>): nat {
    if q == [] then 0 else Bit(q[0].Live?) + LiveCount(q[1..])
  }

  function Occurs(q: seq<Wrapper>, id: nat): nat {
    if q == [] then 0 else Bit(q[0] == Live(id)) + Occurs(q[1..], id)
  }

  lemma {:induction false} SumUpdate(m: Measure, procs: seq<Pc>, p: nat, pc: Pc)
    requires p < |procs|
    ensures Sum(m, procs[p := pc]) == Sum(m, procs) - Weight(m, procs[p]) + Weight(m, pc)
  {
    if p == 0 {
      assert procs[p := pc][1..] == procs[1..];
    } else {
      assert procs[p := pc][1..] == procs[1..][p - 1 := pc];
      SumUpdate(m, procs[1..], p - 1, pc);
    }
  }

  lemma {:induction false} SumZero(m: Measure, procs: seq<Pc>)
    requires forall i :: 0 <= i < |procs| ==> Weight(m, procs[i]) == 0
    ensures Sum(m, procs) == 0
  {
    if procs != [] { SumZero(m, procs[1..]); }
  }

  lemma {:induction false} SumNonNegative(m: Measure, procs: seq<Pc>)
    requires forall i :: 0 <= i < |procs| ==> 0 <= Weight(m, procs[i])
    ensures 0 <= Sum(m, procs)
  {
    if procs != [] { SumNonNegative(m, procs[1..]); }
  }

  // A non-negative measure is at least what any one process contributes.
  lemma SumAtLeast(m: Measure, procs: seq<Pc>, p: nat)
    requires p < |procs|
    requires forall i :: 0 <= i < |procs| ==> 0 <= Weight(m, procs[i])
    ensures Weight(m, procs[p]) <= Sum(m, procs)
  {
    SumUpdate(m, procs, p, Idle);
    SumNonNegative(m, procs[p := Idle]);
  }

  // ... and at least what any two contribute together.
  lemma SumAtLeastTwo(m: Measure, procs: seq<Pc>, p: nat, q: nat)
    requires p < |procs| && q < |procs| && p != q
    requires forall i :: 0 <= i < |procs| ==> 0 <= Weight(m, procs[i])
    ensures Weight(m, procs[p]) + Weight(m, procs[q]) <= Sum(m, procs)
  {
    SumUpdate(m, procs, p, Idle);
    SumAtLeast(m, procs[p := Idle], q);
  }

  // If no process but p contributes, the sum is p's share.
  lemma SumOnly(m: Measure, procs: seq<Pc>, p: nat)
    requires p < |procs|
    requires forall i :: 0 <= i < |procs| && i != p ==> Weight(m, procs[i]) == 0
    ensures Sum(m, procs) == Weight(m, procs[p])
  {
    SumUpdate(m, procs, p, Idle);
    SumZero(m, procs[p := Idle]);
  }

  // Measures that agree process by process agree in sum.
  lemma {:induction false} SumEqual(m: Measure, n: Measure, procs: seq<Pc>)
    requires forall i :: 0 <= i < |procs| ==> Weight(m, procs[i]) == Weight(n, procs[i])
    ensures Sum(m, procs) == Sum(n, procs)
  {
    if procs != [] { SumEqual(m, n, procs[1..]); }
  }

  lemma {:induction false} LiveCountAppend(q: seq<Wrapper>, w: Wrapper)
    ensures LiveCount(q + [w]) == LiveCount(q) + Bit(w.Live?)
  {
    if q == [] {
      assert q + [w] == [w];
    } else {
      assert (q + [w])[1..] == q[1..] + [w];
      LiveCountAppend(q[1..], w);
    }
  }

  lemma {:induction false} OccursAppend(q: seq<Wrapper>, w: Wrapper, id: nat)
    ensures Occurs(q + [w], id) == Occurs(q, id) + Bit(w == Live(id))
  {
    if q == [] {
      assert q + [w] == [w];
    } else {
      assert (q + [w])[1..] == q[1..] + [w];
      OccursAppend(q[1..], w, id);
    }
  }

  lemma {:induction false} EmptyQueueCounts(n: nat)
    ensures LiveCount(Repeat(Empty, n)) == 0
    ensures forall id :: Occurs(Repeat(Empty, n), id) == 0
  {
    var q := Repeat(Empty, n);
    if n > 0 {
      assert q[1..] == Repeat(Empty, n - 1);
      EmptyQueueCounts(n - 1);
    }
  }
}
