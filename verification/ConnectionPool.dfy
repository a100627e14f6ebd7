/** The connection pool as the resource pool's client.

SetCapacity holds the pool mutex for the whole resize.  Get and Put take it for a moment,
to read the pool's pointer.  Close takes it for a moment too, then stops the sweep and
drains the pool without it, and takes it again to drop the pointer.  The background sweep
takes no mutex.
 */
module ConnectionPool {
  import opened Common
  import opened ResourcePool
  import opened ResourcePoolSafety
  import opened ResourcePoolRuns

  // Where a Close stands: it has read the pointer and has yet to stop the sweep; it resizes
  // to zero; it is back from the resource pool and has yet to drop the pointer.
  datatype ClosePhase = Entered | Emptying | Emptied

  // `holder` is the SetCapacity that holds the mutex, `missing` a dropped pool pointer,
  // `putPanic` a Put that found it dropped; `closes` counts the Closes that found a pool.
  datatype Client = Client(
    core: State,
    holder: Option<nat>,
    closing: map<nat, ClosePhase>,
    missing: bool,
    putPanic: bool,
    closes: nat)

  predicate IsHolding(pc: Pc) {
    pc.Put? && pc.put.Holding?
  }

  // The resource pool has moved to s by a step of p.  A SetCapacity that returns frees the
  // mutex.
  function After(a: Client, p: nat, s: State): Client
    requires p < |s.procs|
  {
    if s.procs[p] != Idle then a.(core := s)
    else if p in a.closing then a.(core := s, closing := a.closing[p := Emptied])
    else if a.holder == Some(p) then a.(core := s, holder := None)
    else a.(core := s)
  }

  function PoolStep(a: Client, p: nat, c: Choice): Option<Client> {
    match Step(a.core, p, c)
    case None => None
    case Some(s) => Some(After(a, p, s))
  }

  // A call that finds no pool returns at once.
  function CallStep(a: Client, p: nat, c: Choice): Option<Client> {
    if c == CallSweep then PoolStep(a, p, c)
    else if a.holder.Some? || a.missing then None
    else match c
      case CallGet => PoolStep(a, p, c)
      case CallResize(_) => PoolStep(a.(holder := Some(p)), p, c)
      case CallClose => Some(a.(closing := a.closing[p := Entered], closes := a.closes + 1))
      case _ => None
  }

  function CloseStep(a: Client, p: nat): Option<Client>
    requires p in a.closing
  {
    match a.closing[p]
    case Entered => PoolStep(a.(closing := a.closing[p := Emptying]), p, CallClose)
    case Emptying => PoolStep(a, p, Proceed)
    case Emptied => if a.holder.Some? then None else Some(a.(closing := a.closing - {p}, missing := true))
  }

  /** One step of process p; None when it has to wait.  A panic ends the run. */
  function ClientStep(a: Client, p: nat, c: Choice): Option<Client> {
    if p >= |a.core.procs| || Panicked(a) then None
    else if p in a.closing then CloseStep(a, p)
    else if a.core.procs[p] == Idle then CallStep(a, p, c)
    else if !IsHolding(a.core.procs[p]) then PoolStep(a, p, c)
    else if a.holder.Some? then None
    else if a.missing then Some(a.(putPanic := true))
    else PoolStep(a, p, c)
  }

  predicate Panicked(a: Client) {
    a.core.pool.fault != NoFault || a.putPanic
  }

  ghost predicate ClientNext(a: Client, b: Client) {
    exists p: nat, c: Choice :: ClientStep(a, p, c) == Some(b)
  }

  ghost predicate ClientInit(a: Client) {
    Init(a.core) && a == Client(a.core, None, map[], false, false, 0)
  }

  ghost predicate Path(run: seq<Client>) {
    run != [] && forall i :: 0 < i < |run| ==> ClientNext(run[i - 1], run[i])
  }

  ghost predicate ClientRun(run: seq<Client>) {
    Path(run) && ClientInit(run[0])
  }

  lemma PathStep(run: seq<Client>, n: nat)
    requires Path(run) && 0 < n < |run|
    ensures ClientNext(run[n - 1], run[n])
  {
  }

  // ------------------------------------------------------------------ reaching states

  ghost predicate Reaches(a: Client, b: Client) {
    exists run :: Leads(run, a, b)
  }

  ghost predicate Leads(run: seq<Client>, a: Client, b: Client) {
    Path(run) && run[0] == a && run[|run| - 1] == b
  }

  ghost predicate Arrived(a: Client) {
    exists z :: ClientInit(z) && Reaches(z, a)
  }

  lemma ReachesSelf(a: Client)
    ensures Reaches(a, a)
  {
    assert Leads([a], a, a);
  }

  lemma ReachesNext(a: Client, b: Client, d: Client)
    requires Reaches(a, b) && ClientNext(b, d)
    ensures Reaches(a, d)
  {
    var run :| Leads(run, a, b);
    var longer := run + [d];
    forall i | 0 < i < |longer| ensures ClientNext(longer[i - 1], longer[i]) {
      if i < |run| { PathStep(run, i); }
    }
    assert Leads(longer, a, d);
  }

  lemma NextReaches(a: Client, b: Client, d: Client)
    requires ClientNext(a, b) && Reaches(b, d)
    ensures Reaches(a, d)
  {
    var run :| Leads(run, b, d);
    var longer := [a] + run;
    forall i | 0 < i < |longer| ensures ClientNext(longer[i - 1], longer[i]) {
      if i > 1 { PathStep(run, i - 1); }
    }
    assert Leads(longer, a, d);
  }

  lemma {:induction false} ReachesTrans(a: Client, b: Client, d: Client)
    requires Reaches(a, b) && Reaches(b, d)
    ensures Reaches(a, d)
  {
    var run :| Leads(run, b, d);
    PathExtends(a, run, |run| - 1);
  }

  lemma {:induction false} PathExtends(a: Client, run: seq<Client>, n: nat)
    requires Path(run) && n < |run| && Reaches(a, run[0])
    ensures Reaches(a, run[n])
  {
    if n > 0 {
      PathExtends(a, run, n - 1);
      PathStep(run, n);
      ReachesNext(a, run[n - 1], run[n]);
    }
  }

  // What every step keeps holds wherever a path leads.
  lemma {:induction false} PathKeeps(inv: Client -> bool, run: seq<Client>, n: nat)
    requires Path(run) && n < |run| && inv(run[0])
    requires forall a, b :: inv(a) && ClientNext(a, b) ==> inv(b)
    ensures inv(run[n])
  {
    if n > 0 {
      PathKeeps(inv, run, n - 1);
      PathStep(run, n);
    }
  }

  lemma ReachesKeeps(inv: Client -> bool, a: Client, b: Client)
    requires Reaches(a, b) && inv(a)
    requires forall x, y :: inv(x) && ClientNext(x, y) ==> inv(y)
    ensures inv(b)
  {
    var run :| Leads(run, a, b);
    PathKeeps(inv, run, |run| - 1);
  }

  // ------------------------------------------------------------- what every run keeps

  // A resize past the exchange of the capacity.
  predicate InLoop(pc: Pc) {
    pc.Resize? && !pc.resize.Load? && !pc.resize.Cas?
  }

  ghost predicate CloserOk(s: State, i: nat, phase: ClosePhase) {
    && i < |s.procs|
    && match phase
       case Entered => s.procs[i] == Idle
       case Emptying =>
         && s.procs[i].Resize? && s.procs[i].resize.target == 0 && s.pool.sweepStopped
         && (InLoop(s.procs[i]) ==> s.pool.capacity == 0)
       case Emptied => s.procs[i] == Idle && s.pool.capacity == 0
  }

  ghost predicate HolderOk(a: Client) {
    a.holder.Some? ==>
      && a.holder.value < |a.core.procs| && a.holder.value !in a.closing
      && a.core.procs[a.holder.value].Resize?
  }

  ghost predicate ResizersOk(s: State) {
    && s.pool.capacity <= s.pool.maxCap
    && forall i :: 0 <= i < |s.procs| && s.procs[i].Resize? ==> ResizeOk(s.pool, s.procs[i].resize)
  }

  // Every resize is a Close's or belongs to the holder of the mutex.
  ghost predicate ResizersKnown(a: Client) {
    forall i :: 0 <= i < |a.core.procs| && a.core.procs[i].Resize? ==> a.holder == Some(i) || i in a.closing
  }

  ghost predicate Tidy(a: Client) {
    && HolderOk(a) && ResizersOk(a.core) && ResizersKnown(a)
    && (forall i :: i in a.closing ==> CloserOk(a.core, i, a.closing[i]))
    && (a.missing ==> a.core.pool.capacity == 0)
  }

  ghost predicate Books(s: State) {
    Shape(s) && Ledger(s)
  }

  // The local facts behind Tidy.
  lemma LocalTidy(g: Pool, pc: Pc, sweepRuns: bool, c: Choice)
    requires LocalStep(g, pc, sweepRuns, c).Some? && g.capacity <= g.maxCap && (pc.Resize? ==> ResizeOk(g, pc.resize))
    ensures var l := LocalStep(g, pc, sweepRuns, c).value;
      && l.pool.maxCap == g.maxCap && l.pool.capacity <= g.maxCap && (g.sweepStopped ==> l.pool.sweepStopped)
      && (g.capacity == 0 ==> l.pool.capacity == 0)
  {
  }

  lemma LocalResizeOk(g: Pool, pc: Pc, sweepRuns: bool, c: Choice)
    requires LocalStep(g, pc, sweepRuns, c).Some? && g.capacity <= g.maxCap && (pc.Resize? ==> ResizeOk(g, pc.resize))
    ensures var l := LocalStep(g, pc, sweepRuns, c).value; l.pc.Resize? ==> ResizeOk(l.pool, l.pc.resize)
  {
  }

  lemma LocalResizes(g: Pool, pc: Pc, sweepRuns: bool, c: Choice)
    requires LocalStep(g, pc, sweepRuns, c).Some? && (pc.Resize? ==> ResizeOk(g, pc.resize))
    ensures var l := LocalStep(g, pc, sweepRuns, c).value;
      && (l.pc.Resize? ==>
            || (pc.Resize? && l.pc.resize.target == pc.resize.target)
            || (pc == Idle && StartsResize(c, l.pc)))
      && (pc.Resize? && !l.pc.Resize? ==> l.pc == Idle)
      && (InLoop(l.pc) && !InLoop(pc) ==> l.pool.capacity == l.pc.resize.target)
      && (pc.Resize? && pc.resize.target == 0 && l.pc == Idle ==> g.capacity == 0 || InLoop(pc))
  {
  }

  predicate StartsResize(c: Choice, pc: Pc) {
    match c
    case CallResize(capacity) => pc.Resize? && pc.resize.Load? && pc.resize.target == capacity
    case CallClose => pc == Resize(Load(0))
    case _ => false
  }

  lemma StepKeepsResizers(s: State, p: nat, c: Choice)
    requires ResizersOk(s) && Step(s, p, c).Some?
    ensures var s' := Step(s, p, c).value;
      && ResizersOk(s') && (s.pool.capacity == 0 ==> s'.pool.capacity == 0)
      && (s.pool.sweepStopped ==> s'.pool.sweepStopped) && s'.pool.maxCap == s.pool.maxCap
  {
    LocalTidy(s.pool, s.procs[p], SweepRuns(s.procs), c);
    LocalResizeOk(s.pool, s.procs[p], SweepRuns(s.procs), c);
  }

  // A Close whose process does not move stays where it is.
  lemma CloserStays(s: State, p: nat, c: Choice, i: nat, phase: ClosePhase)
    requires ResizersOk(s) && Step(s, p, c).Some? && i != p && CloserOk(s, i, phase)
    ensures CloserOk(Step(s, p, c).value, i, phase)
  {
    StepKeepsResizers(s, p, c);
  }

  // A call other than Close, or a step of one.
  lemma OtherStepTidy(a: Client, p: nat, c: Choice)
    requires Tidy(a) && p !in a.closing && PoolStep(a, p, c).Some?
    requires a.core.procs[p] == Idle ==> c == CallGet || c == CallSweep
    ensures Tidy(PoolStep(a, p, c).value)
  {
    StepKeepsResizers(a.core, p, c);
    LocalResizes(a.core.pool, a.core.procs[p], SweepRuns(a.core.procs), c);
    forall i | i in a.closing { CloserStays(a.core, p, c, i, a.closing[i]); }
  }

  lemma SetCapacityTidy(a: Client, p: nat, capacity: int)
    requires Tidy(a) && p !in a.closing && a.holder == None && !a.missing
    requires p < |a.core.procs| && a.core.procs[p] == Idle && PoolStep(a, p, CallResize(capacity)).Some?
    ensures Tidy(PoolStep(a.(holder := Some(p)), p, CallResize(capacity)).value)
  {
    StepKeepsResizers(a.core, p, CallResize(capacity));
    forall i | i in a.closing { CloserStays(a.core, p, CallResize(capacity), i, a.closing[i]); }
  }

  lemma CloseTidy(a: Client, p: nat)
    requires Tidy(a) && p in a.closing && CloseStep(a, p).Some?
    ensures Tidy(CloseStep(a, p).value)
  {
    match a.closing[p] {
      case Entered => CloserMovesTidy(a, p, CallClose);
      case Emptying => EmptyingTidy(a, p);
      case Emptied => DropTidy(a, p);
    }
  }

  lemma DropTidy(a: Client, p: nat)
    requires Tidy(a) && p in a.closing && a.closing[p] == Emptied
    ensures Tidy(a.(closing := a.closing - {p}, missing := true))
  {
    assert CloserOk(a.core, p, Emptied);
  }

  lemma EmptyingTidy(a: Client, p: nat)
    requires Tidy(a) && p in a.closing && a.closing[p] == Emptying && PoolStep(a, p, Proceed).Some?
    ensures Tidy(PoolStep(a, p, Proceed).value)
  {
    assert a.(closing := a.closing[p := Emptying]) == a;
    CloserMovesTidy(a, p, Proceed);
  }

  lemma CloserMovesTidy(a: Client, p: nat, c: Choice)
    requires Tidy(a) && p in a.closing && Step(a.core, p, c).Some?
    requires (a.closing[p] == Entered && c == CallClose) || (a.closing[p] == Emptying && c == Proceed)
    ensures Tidy(After(a.(closing := a.closing[p := Emptying]), p, Step(a.core, p, c).value))
  {
    assert CloserOk(a.core, p, a.closing[p]);
    StepKeepsResizers(a.core, p, c);
    LocalResizes(a.core.pool, a.core.procs[p], SweepRuns(a.core.procs), c);
    forall i | i in a.closing && i != p { CloserStays(a.core, p, c, i, a.closing[i]); }
  }

  lemma ClientStepTidy(a: Client, p: nat, c: Choice)
    requires Tidy(a) && ClientStep(a, p, c).Some?
    ensures Tidy(ClientStep(a, p, c).value)
  {
    if p in a.closing {
      CloseTidy(a, p);
    } else if a.core.procs[p] == Idle && c.CallResize? {
      SetCapacityTidy(a, p, c.capacity);
    } else if a.core.procs[p] == Idle && c == CallClose {
    } else if IsHolding(a.core.procs[p]) && a.missing {
    } else {
      OtherStepTidy(a, p, c);
    }
  }

  // -------------------------------------------------------------- steps of the pool inside

  // A step that takes the mutex on its way into the pool; Close has had it before.
  predicate NeedsMutex(pc: Pc, c: Choice) {
    (pc == Idle && (c == CallGet || c.CallResize?)) || IsHolding(pc)
  }

  // The step of the resource pool behind a step of the client.
  ghost predicate PoolMoves(a: Client, b: Client, p: nat, c: Choice) {
    && Step(a.core, p, c) == Some(b.core) && a.closes == b.closes && a.putPanic == b.putPanic
    && (a.holder.Some? || a.missing ==> !NeedsMutex(a.core.procs[p], c)) && b.holder in {a.holder, None, Some(p)}
    && (a.core.procs[p] == Idle && c == CallClose ==> p in a.closing && a.closing[p] == Entered)
  }

  // A Close makes its own choices.
  function PoolChoice(a: Client, p: nat, c: Choice): Choice {
    if p !in a.closing then c else if a.closing[p] == Entered then CallClose else Proceed
  }

  lemma StepMoves(a: Client, p: nat, c: Choice)
    requires Tidy(a) && ClientStep(a, p, c).Some?
    ensures var b := ClientStep(a, p, c).value; Bookkeeping(a, b) || PoolMoves(a, b, p, PoolChoice(a, p, c))
  {
    if p in a.closing { assert CloserOk(a.core, p, a.closing[p]); }
  }

  // A step that leaves the resource pool alone.
  ghost predicate Bookkeeping(a: Client, b: Client) {
    b.core == a.core && b.holder == a.holder && (b.putPanic ==> a.putPanic || a.missing)
  }

  lemma NextMoves(a: Client, b: Client) returns (p: nat, c: Choice)
    requires Tidy(a) && ClientNext(a, b)
    ensures Bookkeeping(a, b) || PoolMoves(a, b, p, c)
  {
    var q: nat, d :| ClientStep(a, q, d) == Some(b);
    StepMoves(a, q, d);
    p, c := q, PoolChoice(a, q, d);
  }

  lemma StepKeepsBooks(s: State, p: nat, c: Choice)
    requires Books(s) && Step(s, p, c).Some? && !Forges(s.pool, s.procs[p])
    ensures Books(Step(s, p, c).value)
  {
    StepKeepsLedger(s, p, c);
  }

  /** Conservation for the client: its steps keep the books up to a drain of the closed
      channel. */
  lemma ClientStepKeepsBooks(a: Client, b: Client)
    requires Tidy(a) && Books(a.core) && ClientNext(a, b) && !Forging(a)
    ensures Books(b.core)
  {
    var p, c := NextMoves(a, b);
    if !Bookkeeping(a, b) { StepKeepsBooks(a.core, p, c); }
  }

  ghost predicate Forging(a: Client) {
    exists i :: 0 <= i < |a.core.procs| && Forges(a.core.pool, a.core.procs[i])
  }

  // A SetCapacity in flight; the other resizes are Closes.
  ghost predicate SetsCapacity(a: Client, p: nat) {
    p < |a.core.procs| && a.core.procs[p].Resize? && p !in a.closing
  }

  // At most one SetCapacity, beside any Closes, and it holds the mutex.
  ghost predicate OneSetCapacity(a: Client) {
    forall p: nat :: SetsCapacity(a, p) ==> a.holder == Some(p)
  }

  lemma InitTidy(a: Client)
    requires ClientInit(a)
    ensures Tidy(a) && Books(a.core)
  {
    InitSerialInv(a.core);
  }

  lemma NextTidy(a: Client, b: Client)
    requires Tidy(a) && ClientNext(a, b)
    ensures Tidy(b)
  {
    var p: nat, c :| ClientStep(a, p, c) == Some(b);
    ClientStepTidy(a, p, c);
  }

  lemma {:induction false} RunIsTidy(run: seq<Client>, n: nat)
    requires ClientRun(run) && n < |run|
    ensures Tidy(run[n])
  {
    if n == 0 {
      InitTidy(run[0]);
    } else {
      RunIsTidy(run, n - 1);
      PathStep(run, n);
      NextTidy(run[n - 1], run[n]);
    }
  }

  /** In every run of the client at most one SetCapacity is in flight, beside any number of
      Closes, and the books balance until a drain reads the closed channel. */
  lemma {:induction false} ClientRunBalances(run: seq<Client>, n: nat)
    requires ClientRun(run) && n < |run|
    ensures OneSetCapacity(run[n])
    ensures Books(run[n].core) || exists k :: 0 <= k < n && Forging(run[k])
  {
    RunIsTidy(run, n);
    if n == 0 {
      InitTidy(run[0]);
    } else {
      ClientRunBalances(run, n - 1);
      if Books(run[n - 1].core) && !Forging(run[n - 1]) {
        RunIsTidy(run, n - 1);
        PathStep(run, n);
        ClientStepKeepsBooks(run[n - 1], run[n]);
      }
    }
  }

  /** Only a SetCapacity that a Close overlaps drains the closed channel: Closes never do. */
  lemma ForgerHoldsMutex(a: Client, p: nat)
    requires Tidy(a) && Shape(a.core) && p < |a.core.procs| && Forges(a.core.pool, a.core.procs[p])
    ensures a.holder == Some(p) && a.core.procs[p].resize.target >= 1
  {
    SumAtLeast(ToZero, a.core.procs, p);
    CloserTarget(a, p);
  }

  lemma CloserTarget(a: Client, p: nat)
    requires Tidy(a) && p < |a.core.procs|
    ensures p in a.closing && a.core.procs[p].Resize? ==> a.closing[p] == Emptying && a.core.procs[p].resize.target == 0
  {
    if p in a.closing { assert CloserOk(a.core, p, a.closing[p]); }
  }
}
