/** Weighted round robin over the slaves of a slice. */
module Balancer {
  import opened Common

  // ------------------------------------------------------------------------- gcd

  ghost predicate DividesAll(d: int, a: seq<int>)
    requires 0 < d
  {
    forall i :: 0 <= i < |a| ==> a[i] % d == 0
  }

  ghost predicate IsGcd(g: int, a: seq<int>) {
    0 < g && DividesAll(g, a) && forall d :: 0 < d && DividesAll(d, a) ==> d <= g
  }

  ghost predicate Positive(a: seq<int>) {
    forall i :: 0 <= i < |a| ==> 0 < a[i]
  }

  // Does `d` divide every weight?
  method IsCommon(a: seq<int>, d: int) returns (common: bool)
    requires 0 < d
    ensures common <==> DividesAll(d, a)
  {
    for i := 0 to |a|
      invariant forall j :: 0 <= j < i ==> a[j] % d == 0
    {
      if a[i] % d != 0 {
        return false;
      }
    }
    return true;
  }

  method Minimum(a: seq<int>) returns (min: int)
    requires a != []
    ensures min in a && forall i :: 0 <= i < |a| ==> min <= a[i]
  {
    min := a[0];
    for i := 0 to |a|
      invariant min in a && forall j :: 0 <= j < i ==> min <= a[j]
    {
      if a[i] < min {
        min := a[i];
      }
    }
  }

  /** The search from the smallest weight downwards finds the greatest common divisor. */
  method Gcd(a: seq<int>) returns (g: int)
    requires a != [] && Positive(a)
    ensures IsGcd(g, a)
  {
    g := Minimum(a);
    forall d | g < d ensures !DividesAll(d, a) {
      var k :| 0 <= k < |a| && a[k] == g;
      ModUnique(a[k], d, 0, a[k]);
    }
    var common := IsCommon(a, g);
    while !common
      invariant 0 < g && (common <==> DividesAll(g, a))
      invariant forall d :: g < d ==> !DividesAll(d, a)
      decreases g
    {
      if g == 1 {
        assert DividesAll(1, a);
      }
      g := g - 1;
      common := IsCommon(a, g);
    }
  }

  // ----------------------------------------------------------------------- queue

  /** Slave i stands in the queue exactly weight_i / g times, and nobody else does. */
  ghost predicate Weighted(queue: seq<int>, weights: seq<int>, g: int)
    requires 0 < g
  {
    && (forall k :: 0 <= k < |queue| ==> 0 <= queue[k] < |weights|)
    && (forall i :: 0 <= i < |weights| ==> multiset(queue)[i] == weights[i] / g)
  }

  ghost predicate SharesByWeight(queue: seq<int>, weights: seq<int>) {
    exists g :: IsGcd(g, weights) && Weighted(queue, weights, g)
  }

  // Without slaves the queue is never built.
  ghost predicate QueueFor(queue: seq<int>, weights: seq<int>) {
    if weights == [] then queue == [] else SharesByWeight(queue, weights)
  }

  lemma SwapKeeps(q: seq<int>, x: int, y: int)
    requires 0 <= x < |q| && 0 <= y < |q|
    ensures multiset(q[x := q[y]][y := q[x]]) == multiset(q)
  {
  }

  lemma SameElements(p: seq<int>, q: seq<int>)
    requires multiset(p) == multiset(q)
    ensures |p| == |q| && forall i :: i in p <==> i in q
  {
    assert |multiset(p)| == |p| && |multiset(q)| == |q|;
    forall i ensures i in p <==> i in q {
      assert i in p <==> i in multiset(p);
      assert i in q <==> i in multiset(q);
    }
  }

  // weight / g copies of every index, in order.
  method FillQueue(weights: seq<int>, g: int) returns (queue: seq<int>)
    requires 0 < g && Positive(weights)
    ensures Weighted(queue, weights, g)
  {
    queue := [];
    for index := 0 to |weights|
      invariant forall k :: 0 <= k < |queue| ==> 0 <= queue[k] < index
      invariant forall i :: 0 <= i < index ==> multiset(queue)[i] == weights[i] / g
    {
      var copies := weights[index] / g;
      ghost var before := queue;
      assert index !in before;
      assert multiset(before)[index] == 0;
      for j := 0 to copies
        invariant forall k :: 0 <= k < |queue| ==> 0 <= queue[k] <= index
        invariant multiset(queue)[index] == j
        invariant forall i :: 0 <= i < index ==> multiset(queue)[i] == multiset(before)[i]
      {
        queue := queue + [index];
      }
    }
  }

  // sum swaps of a random place x with place sum % (x + 1).
  method Shuffle(queue0: seq<int>) returns (queue: seq<int>)
    ensures multiset(queue) == multiset(queue0)
  {
    queue := queue0;
    var sum := |queue|;
    for i := 0 to sum
      invariant |queue| == sum && multiset(queue) == multiset(queue0)
    {
      var x: int :| 0 <= x < sum;
      var temp := queue[x];
      var other := sum % (x + 1);
      SwapKeeps(queue, x, other);
      queue := queue[x := queue[other]];
      queue := queue[other := temp];
    }
  }

  /** What initBalancer leaves behind, for any random source. */
  method BuildQueue(weights: seq<int>) returns (queue: seq<int>)
    requires weights != [] && Positive(weights)
    ensures SharesByWeight(queue, weights)
  {
    var g := Gcd(weights);
    queue := FillQueue(weights, g);
    if 1 < |weights| {
      ghost var filled := queue;
      queue := Shuffle(queue);
      SameElements(queue, filled);
      forall k | 0 <= k < |queue| ensures 0 <= queue[k] < |weights| {
        assert queue[k] in queue;
      }
    }
  }

  // -------------------------------------------------------------------- fairness

  // The queue positions k calls pick, starting at cursor c.
  function Picks(queue: seq<int>, c: int, k: nat): (p: seq<int>)
    requires queue != [] && 0 <= c
    ensures |p| == k
  {
    seq(k, j requires 0 <= j => queue[(c + j) % |queue|])
  }

  lemma PicksOnePeriod(queue: seq<int>, c: nat)
    requires queue != []
    ensures Picks(queue, c, |queue|) == queue[c % |queue|..] + queue[..c % |queue|]
  {
    var n, r := |queue|, c % |queue|;
    var rotated := queue[r..] + queue[..r];
    forall j | 0 <= j < n ensures Picks(queue, c, n)[j] == rotated[j] {
      WrapAt(c, n, j);
    }
  }

  lemma WrapAt(c: nat, n: nat, j: nat)
    requires 0 < n && j < n
    ensures (c + j) % n == if c % n + j < n then c % n + j else c % n + j - n
  {
    var q, r := c / n, c % n;
    assert c == n * q + r && n * (q + 1) == n * q + n;
    if r + j < n { ModUnique(c + j, n, q, r + j); } else { ModUnique(c + j, n, q + 1, r + j - n); }
  }

  /** From any cursor, one full period picks slave i exactly weight_i / g times. */
  lemma OnePeriodIsFair(queue: seq<int>, weights: seq<int>, g: int, c: nat, i: int)
    requires queue != [] && 0 < g && Weighted(queue, weights, g) && 0 <= i < |weights|
    ensures multiset(Picks(queue, c, |queue|))[i] == weights[i] / g
  {
    PicksOnePeriod(queue, c);
    assert queue == queue[..c % |queue|] + queue[c % |queue|..];
  }

  // ------------------------------------------------------------------ the cursors

  // The two cursors of a slice; the statistic selector also writes the first.
  datatype Cursors = Cursors(last: nat, lastStat: nat)

  datatype Op = Next | NextStat

  // With queues of n and m entries; a call on an empty queue fails and moves nothing.
  function Advance(c: Cursors, op: Op, n: nat, m: nat): Cursors {
    if op.Next? then
      if n <= 1 then c else c.(last := (c.last % n + 1) % n)
    else
      if m <= 1 then c else Cursors(c.lastStat % m, (c.lastStat + 1) % m)
  }

  // The queue position a selector reads.
  function Position(c: Cursors, op: Op, n: nat): nat
    requires 0 < n
  {
    if op.Next? then c.last % n else c.lastStat
  }

  // Cursors after a run of calls.
  function RunCursors(c: Cursors, ops: seq<Op>, n: nat, m: nat): Cursors {
    if ops == [] then c else Advance(RunCursors(c, ops[..|ops| - 1], n, m), ops[|ops| - 1], n, m)
  }

  function NextCount(ops: seq<Op>): nat {
    if ops == [] then 0 else NextCount(ops[..|ops| - 1]) + if ops[|ops| - 1].Next? then 1 else 0
  }

  /** Over every run of both selectors each read of a queue that is not empty stays inside it. */
  lemma {:induction false} CursorsStaySafe(ops: seq<Op>, n: nat, m: nat, op: Op)
    ensures 0 < m ==> RunCursors(Cursors(0, 0), ops, n, m).lastStat < m
    ensures var size := if op.Next? then n else m;
      0 < size ==> Position(RunCursors(Cursors(0, 0), ops, n, m), op, size) < size
  {
    if ops != [] { CursorsStaySafe(ops[..|ops| - 1], n, m, op); }
  }

  /** The round robin keeps its place over every run without a statistic call, and also
      when the statistic queue is too short to move: then statistic calls do not matter. */
  lemma {:induction false} RoundRobinKeepsPlace(c: Cursors, ops: seq<Op>, n: nat, m: nat)
    requires 0 < n && (m <= 1 || forall i :: 0 <= i < |ops| ==> ops[i].Next?)
    ensures RunCursors(c, ops, n, m).last % n == (c.last + NextCount(ops)) % n
  {
    if ops != [] {
      var before := ops[..|ops| - 1];
      RoundRobinKeepsPlace(c, before, n, m);
      if ops[|ops| - 1].Next? {
        ModAddOne(RunCursors(c, before, n, m).last, c.last + NextCount(before), n);
      }
    }
  }

  lemma ModAddOne(x: nat, y: nat, n: nat)
    requires 0 < n && x % n == y % n
    ensures (x % n + 1) % n % n == (y + 1) % n
  {
    var q, r := y / n, y % n;
    assert y == n * q + r;
    if r + 1 < n {
      ModUnique(y + 1, n, q, r + 1);
      ModUnique(r + 1, n, 0, r + 1);
    } else {
      assert n * (q + 1) == n * q + n;
      ModUnique(y + 1, n, q + 1, 0);
      ModUnique(n, n, 1, 0);
      ModUnique(0, n, 0, 0);
    }
  }

  function StatCount(ops: seq<Op>): nat {
    if ops == [] then 0 else StatCount(ops[..|ops| - 1]) + if ops[|ops| - 1].NextStat? then 1 else 0
  }

  lemma ModNext(x: nat, y: nat, m: nat)
    requires x < m && x == y % m
    ensures m > 1 ==> (x + 1) % m == (y + 1) % m
    ensures m == 1 ==> x == (y + 1) % m
  {
    ModUnique(x, m, 0, x);
    ModAddOne(x, y, m);
    var z := (x + 1) % m;
    ModUnique(z, m, 0, z);
  }

  /** The statistic selector walks its own queue in order whatever else is called. */
  lemma {:induction false} StatisticKeepsPlace(c: Cursors, ops: seq<Op>, n: nat, m: nat)
    requires c.lastStat < m
    ensures RunCursors(c, ops, n, m).lastStat == (c.lastStat + StatCount(ops)) % m
  {
    if ops == [] {
      ModUnique(c.lastStat, m, 0, c.lastStat);
    } else {
      var before := ops[..|ops| - 1];
      StatisticKeepsPlace(c, before, n, m);
      ModNext(RunCursors(c, before, n, m).lastStat, c.lastStat + StatCount(before), m);
    }
  }

  // After this run of both selectors the round robin, if it has any slaves, stands where its
  // own calls put it.
  ghost predicate KeepsPlace(ops: seq<Op>, n: nat, m: nat) {
    0 < n ==> RunCursors(Cursors(0, 0), ops, n, m).last % n == NextCount(ops) % n
  }

  /** Statistic calls leave the round robin alone in every run exactly when one of the
      two queues has at most one entry. */
  lemma KeepsPlaceIff(n: nat, m: nat)
    ensures (forall ops: seq<Op> :: KeepsPlace(ops, n, m)) <==> n <= 1 || m <= 1
  {
    if n <= 1 || m <= 1 {
      forall ops: seq<Op> ensures KeepsPlace(ops, n, m) {
        if 0 < n && m <= 1 { RoundRobinKeepsPlace(Cursors(0, 0), ops, n, m); }
      }
    } else {
      var one, two := [NextStat], [NextStat, NextStat];
      assert two[..1] == one && one[..0] == [];
      assert RunCursors(Cursors(0, 0), one, n, m) == Cursors(0, 1);
      assert NextCount(two) == 0;
      assert !KeepsPlace(two, n, m);
    }
  }

  function Stats(j: nat): (ops: seq<Op>)
    ensures |ops| == j
  {
    if j == 0 then [] else Stats(j - 1) + [NextStat]
  }

  // k rounds of m statistic calls and one ordinary call.
  function Rounds(k: nat, m: nat): seq<Op> {
    if k == 0 then [] else Rounds(k - 1, m) + Stats(m) + [Next]
  }

  lemma {:induction false} AfterStats(c: Cursors, ops: seq<Op>, j: nat, n: nat, m: nat)
    requires 0 < n && 1 < m && 0 < j <= m && RunCursors(c, ops, n, m).lastStat == 0
    ensures RunCursors(c, ops + Stats(j), n, m) == Cursors(j - 1, if j == m then 0 else j)
  {
    var longer := ops + Stats(j);
    assert longer[..|longer| - 1] == ops + Stats(j - 1) && longer[|longer| - 1] == NextStat;
    if j == 1 {
      assert ops + Stats(0) == ops;
    } else {
      AfterStats(c, ops, j - 1, n, m);
    }
    ModUnique(j - 1, m, 0, j - 1);
    if j < m { ModUnique(j, m, 0, j); } else { ModUnique(j, m, 1, 0); }
  }

  /** Statistic calls can starve slaves: whatever the two queues' lengths, with a full turn of
      statistic calls before each ordinary one it reads the same position every time. */
  lemma {:induction false} StatisticCallsStarve(k: nat, n: nat, m: nat)
    requires 0 < n && 1 < m
    ensures RunCursors(Cursors(0, 0), Rounds(k, m), n, m).lastStat == 0
    ensures Position(RunCursors(Cursors(0, 0), Rounds(k, m) + Stats(m), n, m), Next, n) == (m - 1) % n
  {
    if k > 0 {
      StatisticCallsStarve(k - 1, n, m);
      var ops, before := Rounds(k, m), Rounds(k - 1, m) + Stats(m);
      AfterStats(Cursors(0, 0), Rounds(k - 1, m), m, n, m);
      assert ops[..|ops| - 1] == before && ops[|ops| - 1] == Next;
    }
    AfterStats(Cursors(0, 0), Rounds(k, m), m, n, m);
  }

  // ------------------------------------------------- the slaves of the master data centre

  // Every turn appends to the ordinary slaves' weights, so only the last turn's weight stays.
  method MasterDCWeights(slaveWeights: seq<int>, parsed: seq<int>) returns (weights: seq<int>)
    requires parsed != []
    ensures weights == slaveWeights + [parsed[|parsed| - 1]]
  {
    weights := [];
    for i := 0 to |parsed|
      invariant i > 0 ==> weights == slaveWeights + [parsed[i - 1]]
    {
      weights := slaveWeights + [parsed[i]];
    }
  }

  // A positive multiple of d is at least d.
  lemma DivisorIsSmaller(a: int, d: int)
    requires 0 < a && 0 < d && a % d == 0
    ensures d <= a && a / d >= 1
  {
    assert a == d * (a / d);
    MultipleGrows(d, a / d);
  }

  lemma OneWeight(queue: seq<int>, weight: int)
    requires 0 < weight && SharesByWeight(queue, [weight])
    ensures queue == [0]
  {
    var g :| IsGcd(g, [weight]) && Weighted(queue, [weight], g);
    assert DividesAll(weight, [weight]);
    assert [weight][0] % g == 0;
    DivisorIsSmaller(weight, g);
    assert weight / weight == 1;
    AllZero(queue);
  }

  lemma SecondSlaveIsShared(queue: seq<int>, weights: seq<int>)
    requires |weights| >= 2 && Positive(weights) && SharesByWeight(queue, weights)
    ensures 1 in queue
  {
    var g :| IsGcd(g, weights) && Weighted(queue, weights, g);
    DivisorIsSmaller(weights[1], g);
    assert 1 in multiset(queue);
  }

  /** These slaves are parsed before the ordinary ones, so the queue names slave 0 alone;
      it shares the calls by weight exactly when there is one slave. */
  lemma MasterDCSharesIff(parsed: seq<int>, queue: seq<int>)
    requires parsed != [] && Positive(parsed)
    requires SharesByWeight(queue, [] + [parsed[|parsed| - 1]])
    ensures queue == [0]
    ensures SharesByWeight(queue, parsed) <==> |parsed| == 1
  {
    var only := [parsed[|parsed| - 1]];
    assert [] + only == only;
    OneWeight(queue, only[0]);
    if |parsed| == 1 {
      assert parsed == only;
    } else if SharesByWeight(queue, parsed) {
      SecondSlaveIsShared(queue, parsed);
      assert false;
    }
  }

  /** Two slaves of equal weight: the queue built for them names the first alone. */
  lemma SecondMasterDCSlaveIsLost()
    ensures SharesByWeight([0], [] + [1]) && !SharesByWeight([0], [1, 1])
  {
    var only := [1];
    assert [] + only == only;
    assert DividesAll(1, only) && only[0] == 1;
    forall d | 0 < d && DividesAll(d, only) ensures d <= 1 { DivisorIsSmaller(only[0], d); }
    assert IsGcd(1, only);
    assert multiset([0])[0] == 1 && only[0] / 1 == 1;
    assert Weighted([0], only, 1);
    MasterDCSharesIff([1, 1], [0]);
  }

  lemma {:induction false} AllZero(queue: seq<int>)
    requires forall k :: 0 <= k < |queue| ==> queue[k] == 0
    ensures multiset(queue)[0] == |queue|
  {
    if queue != [] {
      AllZero(queue[1..]);
      assert queue == [0] + queue[1..];
    }
  }

  // -------------------------------------------------------------------- the slice

  class Slice<P> {
    var slaves: seq<P>
    var weights: seq<int>
    var queue: seq<int>
    var last: nat
    var statSlaves: seq<P>
    var statWeights: seq<int>
    var statQueue: seq<int>
    var lastStat: nat

    ghost predicate Valid()
      reads this
    {
      && |weights| == |slaves| && QueueFor(queue, weights)
      && |statWeights| == |statSlaves| && QueueFor(statQueue, statWeights)
      && (lastStat < |statQueue| || lastStat == 0)
    }

    ghost function Both(): Cursors
      reads this
    {
      Cursors(last, lastStat)
    }

    constructor (slaves: seq<P>, weights: seq<int>, statSlaves: seq<P>, statWeights: seq<int>)
      requires |weights| == |slaves| && Positive(weights)
      requires |statWeights| == |statSlaves| && Positive(statWeights)
      ensures Valid() && this.slaves == slaves && this.weights == weights && Both() == Cursors(0, 0)
      ensures this.statSlaves == statSlaves && this.statWeights == statWeights
    {
      this.slaves, this.weights, this.statSlaves, this.statWeights := slaves, weights, statSlaves, statWeights;
      queue, last, statQueue, lastStat := [], 0, [], 0;
      new;
      if weights != [] {
        queue := BuildQueue(weights);
      }
      if statWeights != [] {
        statQueue := BuildQueue(statWeights);
      }
    }

    method GetNextSlave() returns (r: Option<P>)
      requires Valid()
      modifies this`last
      ensures Valid()
      ensures queue == [] ==> r == None && last == old(last)
      ensures queue != [] ==> r == Some(slaves[queue[old(last) % |queue|]])
      ensures queue != [] ==> Position(old(Both()), Next, |queue|) == old(last) % |queue|
      ensures Both() == Advance(old(Both()), Next, |queue|, |statQueue|)
      ensures |queue| > 1 ==> last == (old(last) % |queue| + 1) % |queue|
    {
      if |queue| == 0 {
        return None;
      }
      if |queue| == 1 {
        return Some(slaves[queue[0]]);
      }
      last := last % |queue|;
      var index := queue[last];
      if |slaves| <= index {
        return None;
      }
      r := Some(slaves[index]);
      last := last + 1;
      last := last % |queue|;
    }

    method GetNextStatisticSlave() returns (r: Option<P>)
      requires Valid()
      modifies this`last, this`lastStat
      ensures Valid()
      ensures statQueue == [] ==> r == None && Both() == old(Both())
      ensures statQueue != [] ==> r == Some(statSlaves[statQueue[old(lastStat)]])
      ensures statQueue != [] ==> Position(old(Both()), NextStat, |statQueue|) == old(lastStat)
      ensures Both() == Advance(old(Both()), NextStat, |queue|, |statQueue|)
    {
      if |statQueue| == 0 {
        return None;
      }
      if |statQueue| == 1 {
        return Some(statSlaves[statQueue[0]]);
      }
      last := lastStat % |statQueue|;
      var index := statQueue[lastStat];
      if |statSlaves| <= index {
        return None;
      }
      r := Some(statSlaves[index]);
      lastStat := lastStat + 1;
      lastStat := lastStat % |statQueue|;
    }

    /** k calls in a row pick k successive queue entries. */
    method GetMany(k: nat) returns (picked: seq<P>)
      requires Valid() && queue != []
      modifies this`last
      ensures Valid() && |picked| == k
      ensures forall j :: 0 <= j < k ==> picked[j] == slaves[Picks(queue, old(last), k)[j]]
    {
      picked := [];
      for j := 0 to k
        invariant Valid() && |picked| == j && last % |queue| == (old(last) + j) % |queue|
        invariant forall i :: 0 <= i < j ==> picked[i] == slaves[queue[(old(last) + i) % |queue|]]
      {
        ghost var before := last;
        var r := GetNextSlave();
        if |queue| > 1 { ModAddOne(before, old(last) + j, |queue|); }
        picked := picked + [r.value];
      }
    }
  }
}
