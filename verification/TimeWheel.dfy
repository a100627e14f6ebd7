/** The hashed timing wheel with round counters, refined to a map from key to ticks left. */
module TimeWheel {
  import opened Common

  const NANOS_PER_SECOND: int := 1_000_000_000

  // Add refuses a delay that is not positive.
  type Delay = d: int | 0 < d witness 1

  datatype Task<C> = Task(round: nat, callback: C)

  // What the wheel's goroutine takes from its channels and its ticker, one at a time.
  datatype Event<K, C> = Add(delay: Delay, key: K, callback: C) | Remove(key: K) | Tick

  // A pending entry of the abstract timer: it fires on tick number `left` + 1 from now.
  datatype Entry<C> = Entry(left: nat, callback: C)

  // -------------------------------------------------------- the abstract timer

  function Ticks(delay: Delay, tickSeconds: nat): nat
    requires 0 < tickSeconds
  {
    delay / NANOS_PER_SECOND / tickSeconds
  }

  /** A delay is counted in whole ticks, the last part of one dropped. */
  lemma TicksMean(delay: Delay, tickSeconds: nat)
    requires 0 < tickSeconds
    ensures var nanos := tickSeconds * 1_000_000_000;
      Ticks(delay, tickSeconds) * nanos <= delay < (Ticks(delay, tickSeconds) + 1) * nanos
  {
    var seconds, k := delay / NANOS_PER_SECOND, Ticks(delay, tickSeconds);
    assert seconds == tickSeconds * k + seconds % tickSeconds;
    assert k * tickSeconds <= seconds < (k + 1) * tickSeconds;
    assert k * (tickSeconds * NANOS_PER_SECOND) == (k * tickSeconds) * NANOS_PER_SECOND;
    assert (k + 1) * (tickSeconds * NANOS_PER_SECOND) == ((k + 1) * tickSeconds) * NANOS_PER_SECOND;
  }

  function AfterTick<K, C>(m: map<K, Entry<C>>): map<K, Entry<C>> {
    map k | k in m && m[k].left > 0 :: Entry(m[k].left - 1, m[k].callback)
  }

  function Due<K, C>(m: map<K, Entry<C>>): map<K, C> {
    map k | k in m && m[k].left == 0 :: m[k].callback
  }

  function Apply<K, C>(m: map<K, Entry<C>>, e: Event<K, C>, tickSeconds: nat): map<K, Entry<C>>
    requires 0 < tickSeconds
  {
    match e
    case Add(delay, key, callback) => m[key := Entry(Ticks(delay, tickSeconds), callback)]
    case Remove(key) => m - {key}
    case Tick => AfterTick(m)
  }

  function Fired<K, C>(m: map<K, Entry<C>>, e: Event<K, C>): map<K, C> {
    if e.Tick? then Due(m) else map[]
  }

  function Run<K, C>(m: map<K, Entry<C>>, es: seq<Event<K, C>>, tickSeconds: nat): map<K, Entry<C>>
    requires 0 < tickSeconds
  {
    if es == [] then m
    else Apply(Run(m, es[..|es| - 1], tickSeconds), es[|es| - 1], tickSeconds)
  }

  /** The callbacks started by event `j` of a sequence handled from `m`. */
  function FiredAt<K, C>(m: map<K, Entry<C>>, es: seq<Event<K, C>>, j: nat, tickSeconds: nat): map<K, C>
    requires 0 < tickSeconds && j < |es|
  {
    Fired(Run(m, es[..j], tickSeconds), es[j])
  }

  function TickCount<K, C>(es: seq<Event<K, C>>): nat {
    if es == [] then 0 else TickCount(es[..|es| - 1]) + if es[|es| - 1].Tick? then 1 else 0
  }

  // No event adds or removes the key.
  ghost predicate Untouched<K, C>(es: seq<Event<K, C>>, key: K) {
    forall i :: 0 <= i < |es| ==> es[i].Tick? || es[i].key != key
  }

  // An entry left alone counts down and is gone after its last tick.
  lemma {:induction false} CountsDown<K, C>(m: map<K, Entry<C>>, es: seq<Event<K, C>>, key: K, tickSeconds: nat)
    requires 0 < tickSeconds && key in m && Untouched(es, key)
    ensures var t, after := TickCount(es), Run(m, es, tickSeconds);
      if t <= m[key].left then key in after && after[key] == Entry(m[key].left - t, m[key].callback)
      else key !in after
  {
    if es != [] {
      CountsDown(m, es[..|es| - 1], key, tickSeconds);
      assert es[|es| - 1].Tick? || es[|es| - 1].key != key;
    }
  }

  /** A task whose delay is k ticks fires exactly once, on the (k+1)-th tick after its add,
      with its own callback, unless it is removed or replaced. */
  lemma FiresExactlyOnce<K, C>(
    m: map<K, Entry<C>>, delay: Delay, key: K, callback: C, es: seq<Event<K, C>>, j: nat, tickSeconds: nat)
    requires 0 < tickSeconds && j < |es| && Untouched(es, key)
    ensures var fired := FiredAt(Apply(m, Add(delay, key, callback), tickSeconds), es, j, tickSeconds);
      && (key in fired <==> es[j].Tick? && TickCount(es[..j]) == Ticks(delay, tickSeconds))
      && (key in fired ==> fired[key] == callback)
  {
    CountsDown(Apply(m, Add(delay, key, callback), tickSeconds), es[..j], key, tickSeconds);
  }

  /** A removed key does not fire until it is added again. */
  lemma {:induction false} RemovedNeverFires<K, C>(
    m: map<K, Entry<C>>, key: K, es: seq<Event<K, C>>, j: nat, tickSeconds: nat)
    requires 0 < tickSeconds && j < |es| && Untouched(es, key)
    ensures key !in FiredAt(Apply(m, Remove(key), tickSeconds), es, j, tickSeconds)
  {
    StaysAbsent(m - {key}, es[..j], key, tickSeconds);
  }

  lemma {:induction false} StaysAbsent<K, C>(m: map<K, Entry<C>>, es: seq<Event<K, C>>, key: K, tickSeconds: nat)
    requires 0 < tickSeconds && key !in m && Untouched(es, key)
    ensures key !in Run(m, es, tickSeconds)
  {
    if es != [] {
      StaysAbsent(m, es[..|es| - 1], key, tickSeconds);
      assert es[|es| - 1].Tick? || es[|es| - 1].key != key;
    }
  }

  // ------------------------------------------------------------ wheel arithmetic

  // Ticks until a slot `index` with `round` turns left comes due, seen from `current`.
  function Left(n: int, current: int, index: int, round: nat): nat
    requires 0 < n && 0 <= current < n && 0 <= index < n
  {
    round * n + (if current <= index then index - current else index - current + n)
  }

  lemma PlacementLeft(n: int, current: int, k: nat)
    requires 0 < n && 0 <= current < n
    ensures Left(n, current, (current + k) % n, k / n) == k
  {
    var q, r := k / n, k % n;
    assert k == q * n + r;
    if current + r < n {
      ModUnique(current + k, n, q, current + r);
    } else {
      assert current + k == (q + 1) * n + (current + r - n);
      ModUnique(current + k, n, q + 1, current + r - n);
    }
  }

  function CalculateRound(delay: Delay, tickSeconds: int, n: int): nat
    requires 0 < tickSeconds && 0 < n
  {
    delay / NANOS_PER_SECOND / tickSeconds / n
  }

  function CalculateIndex(delay: Delay, tickSeconds: int, n: int, current: int): (index: int)
    requires 0 < tickSeconds && 0 <= current < n
    ensures 0 <= index < n
  {
    (current + delay / NANOS_PER_SECOND / tickSeconds) % n
  }

  /** Slot and round together encode the whole number of ticks. */
  lemma SlotEncodesTicks(delay: Delay, tickSeconds: int, n: int, current: int)
    requires 0 < tickSeconds && 0 <= current < n
    ensures Left(n, current, CalculateIndex(delay, tickSeconds, n, current), CalculateRound(delay, tickSeconds, n))
      == Ticks(delay, tickSeconds)
  {
    PlacementLeft(n, current, Ticks(delay, tickSeconds));
  }

  function NextIndex(n: int, current: int): int {
    if current == n - 1 then 0 else current + 1
  }

  // Turning the wheel one slot takes one tick off every entry that is not due.
  lemma TurnTakesOneTick(n: int, current: int, index: int, round: nat)
    requires 0 < n && 0 <= current < n && 0 <= index < n
    ensures index != current ==>
      Left(n, current, index, round) > 0
      && Left(n, NextIndex(n, current), index, round) == Left(n, current, index, round) - 1
    ensures round > 0 ==> Left(n, NextIndex(n, current), current, round - 1) == Left(n, current, current, round) - 1
    ensures Left(n, current, current, round) == 0 <==> round == 0
  {
    if round > 0 {
      assert (round - 1) * n == round * n - n;
      assert round * n >= n;
    }
  }

  // ---------------------------------------------------------- the wheel as a value

  type Buckets<K, C> = seq<map<K, Task<C>>>

  /** bucketIndexes is the exact inverse of the buckets. */
  ghost predicate Inverse<K(!new), C>(buckets: Buckets<K, C>, indexes: map<K, int>) {
    && (forall k :: k in indexes ==> 0 <= indexes[k] < |buckets| && k in buckets[indexes[k]])
    && (forall i, k :: 0 <= i < |buckets| && k in buckets[i] ==> k in indexes && indexes[k] == i)
  }

  function EntryAt<K, C>(buckets: Buckets<K, C>, current: int, k: K, index: int): Entry<C>
    requires 0 <= current < |buckets| && 0 <= index < |buckets| && k in buckets[index]
  {
    var task := buckets[index][k];
    Entry(Left(|buckets|, current, index, task.round), task.callback)
  }

  /** The abstract timer a wheel stands for. */
  ghost function Abstract<K(!new), C>(buckets: Buckets<K, C>, indexes: map<K, int>, current: int): map<K, Entry<C>>
    requires Inverse(buckets, indexes) && 0 <= current < |buckets|
  {
    map k | k in indexes :: EntryAt(buckets, current, k, indexes[k])
  }

  lemma Dropped<K(!new), C>(buckets: Buckets<K, C>, indexes: map<K, int>, current: int, key: K)
    requires Inverse(buckets, indexes) && 0 <= current < |buckets| && key in indexes
    ensures var buckets', indexes' := buckets[indexes[key] := buckets[indexes[key]] - {key}], indexes - {key};
      && Inverse(buckets', indexes')
      && Abstract(buckets', indexes', current) == Abstract(buckets, indexes, current) - {key}
  {
  }

  lemma Placed<K(!new), C>(
    buckets: Buckets<K, C>, indexes: map<K, int>, current: int, key: K, index: int, task: Task<C>)
    requires Inverse(buckets, indexes) && 0 <= current < |buckets| && 0 <= index < |buckets| && key !in indexes
    ensures var buckets', indexes' := buckets[index := buckets[index][key := task]], indexes[key := index];
      && Inverse(buckets', indexes')
      && Abstract(buckets', indexes', current)
         == Abstract(buckets, indexes, current)[
              key := Entry(Left(|buckets|, current, index, task.round), task.callback)]
  {
  }

  function Without<K, C>(buckets: Buckets<K, C>, indexes: map<K, int>, key: K): Buckets<K, C>
    requires key in indexes ==> 0 <= indexes[key] < |buckets|
  {
    if key in indexes then buckets[indexes[key] := buckets[indexes[key]] - {key}] else buckets
  }

  lemma PutBack<K, V>(m: map<K, V>, key: K, v: V)
    ensures (m - {key})[key := v] == m[key := v]
  {
  }

  lemma Replaced<K(!new), C>(
    buckets: Buckets<K, C>, indexes: map<K, int>, current: int, key: K, index: int, task: Task<C>)
    requires Inverse(buckets, indexes) && 0 <= current < |buckets| && 0 <= index < |buckets|
    ensures var rest := Without(buckets, indexes, key);
      var buckets', indexes' := rest[index := rest[index][key := task]], indexes[key := index];
      && Inverse(buckets', indexes')
      && Abstract(buckets', indexes', current)
         == Abstract(buckets, indexes, current)[
              key := Entry(Left(|buckets|, current, index, task.round), task.callback)]
  {
    if key in indexes {
      var model := Abstract(buckets, indexes, current);
      var e := Entry(Left(|buckets|, current, index, task.round), task.callback);
      Dropped(buckets, indexes, current, key);
      Placed(Without(buckets, indexes, key), indexes - {key}, current, key, index, task);
      PutBack(indexes, key, index);
      PutBack(model, key, e);
    } else {
      Placed(buckets, indexes, current, key, index, task);
    }
  }

  // A bucket and the callbacks started once all its keys but `todo` are scanned.
  function Scanned<K, C>(bucket: map<K, Task<C>>, todo: set<K>): map<K, Task<C>> {
    map k | k in bucket && (k in todo || bucket[k].round > 0) ::
      if k in todo then bucket[k] else Task(bucket[k].round - 1, bucket[k].callback)
  }

  function Started<K, C>(bucket: map<K, Task<C>>, todo: set<K>): map<K, C> {
    map k | k in bucket && k !in todo && bucket[k].round == 0 :: bucket[k].callback
  }

  // Scanning one more key.
  lemma ScanOne<K, C>(bucket: map<K, Task<C>>, todo: set<K>, k: K)
    requires k in bucket && k in todo
    ensures k in Scanned(bucket, todo) && Scanned(bucket, todo)[k] == bucket[k]
    ensures Scanned(bucket, todo - {k}) ==
            if bucket[k].round > 0 then Scanned(bucket, todo)[k := Task(bucket[k].round - 1, bucket[k].callback)]
            else Scanned(bucket, todo) - {k}
    ensures Started(bucket, todo - {k}) ==
            if bucket[k].round > 0 then Started(bucket, todo) else Started(bucket, todo)[k := bucket[k].callback]
  {
  }

  lemma ForgetOne<K, V, C>(indexes: map<K, V>, fired: map<K, C>, k: K, callback: C)
    ensures indexes - fired.Keys - {k} == indexes - fired[k := callback].Keys
  {
  }

  // The effect of one turn on one entry.
  lemma EntryTurns<K(!new), C>(buckets: Buckets<K, C>, indexes: map<K, int>, current: int, k: K)
    requires Inverse(buckets, indexes) && 0 <= current < |buckets| && k in indexes
    ensures var e, started := EntryAt(buckets, current, k, indexes[k]), Started(buckets[current], {});
      var buckets' := buckets[current := Scanned(buckets[current], {})];
      && (e.left == 0 ==> k in started && started[k] == e.callback)
      && (e.left > 0 ==> k !in started && k in buckets'[indexes[k]])
      && (e.left > 0 ==>
            EntryAt(buckets', NextIndex(|buckets|, current), k, indexes[k]) == Entry(e.left - 1, e.callback))
  {
    TurnTakesOneTick(|buckets|, current, indexes[k], buckets[indexes[k]][k].round);
  }

  lemma TurnKeepsInverse<K(!new), C>(buckets: Buckets<K, C>, indexes: map<K, int>, current: int)
    requires Inverse(buckets, indexes) && 0 <= current < |buckets|
    ensures Inverse(buckets[current := Scanned(buckets[current], {})], indexes - Started(buckets[current], {}).Keys)
  {
    var bucket, started := buckets[current], Started(buckets[current], {});
    var buckets', indexes' := buckets[current := Scanned(bucket, {})], indexes - started.Keys;
    forall i, k | 0 <= i < |buckets'| && k in buckets'[i] ensures k in indexes' && indexes'[k] == i {
      assert k in buckets[i] && indexes[k] == i;
      if i == current { assert bucket[k].round > 0; }
    }
    forall k | k in indexes' ensures 0 <= indexes'[k] < |buckets'| && k in buckets'[indexes'[k]] {
      assert k in buckets[indexes[k]];
      if indexes[k] == current { assert bucket[k].round > 0; }
    }
  }

  lemma Turned<K(!new), C>(buckets: Buckets<K, C>, indexes: map<K, int>, current: int)
    requires Inverse(buckets, indexes) && 0 <= current < |buckets|
    ensures var started := Started(buckets[current], {});
      var buckets', indexes' := buckets[current := Scanned(buckets[current], {})], indexes - started.Keys;
      && started == Due(Abstract(buckets, indexes, current))
      && Inverse(buckets', indexes')
      && Abstract(buckets', indexes', NextIndex(|buckets|, current)) == AfterTick(Abstract(buckets, indexes, current))
  {
    TurnKeepsInverse(buckets, indexes, current);
    forall k | k in indexes {
      EntryTurns(buckets, indexes, current, k);
    }
  }

  // -------------------------------------------------------------------- the wheel

  class Wheel<K(==, !new), C> {
    const tickSeconds: int
    const bucketsNum: int
    var buckets: Buckets<K, C>
    var bucketIndexes: map<K, int>
    var currentIndex: int

    ghost predicate Valid()
      reads this
    {
      && 0 < tickSeconds && bucketsNum == |buckets| && 0 <= currentIndex < bucketsNum
      && Inverse(buckets, bucketIndexes)
    }

    ghost function Model(): map<K, Entry<C>>
      reads this
      requires Valid()
    {
      Abstract(buckets, bucketIndexes, currentIndex)
    }

    // NewTimeWheel refuses a wheel without buckets and a tick below one second.
    constructor (tick: int, bucketsNum: int)
      requires 0 < bucketsNum && NANOS_PER_SECOND <= tick
      ensures Valid() && Model() == map[] && this.bucketsNum == bucketsNum
      ensures tickSeconds == tick / NANOS_PER_SECOND
    {
      this.tickSeconds := tick / NANOS_PER_SECOND;
      this.bucketsNum := bucketsNum;
      buckets := seq(bucketsNum, _ => map[]);
      bucketIndexes := map[];
      currentIndex := 0;
    }

    method AddTask(delay: Delay, key: K, callback: C)
      requires Valid()
      modifies this
      ensures Valid() && Model() == Apply(old(Model()), Add(delay, key, callback), tickSeconds)
    {
      var round := CalculateRound(delay, tickSeconds, bucketsNum);
      var index := CalculateIndex(delay, tickSeconds, bucketsNum, currentIndex);
      SlotEncodesTicks(delay, tickSeconds, bucketsNum, currentIndex);
      Replaced(buckets, bucketIndexes, currentIndex, key, index, Task(round, callback));
      if key in bucketIndexes {
        var origin := bucketIndexes[key];
        buckets := buckets[origin := buckets[origin] - {key}];
      }
      bucketIndexes := bucketIndexes[key := index];
      buckets := buckets[index := buckets[index][key := Task(round, callback)]];
    }

    method RemoveTask(key: K)
      requires Valid()
      modifies this
      ensures Valid() && Model() == Apply(old(Model()), Remove(key), tickSeconds)
    {
      if key in bucketIndexes {
        var index := bucketIndexes[key];
        Dropped(buckets, bucketIndexes, currentIndex, key);
        bucketIndexes := bucketIndexes - {key};
        buckets := buckets[index := buckets[index] - {key}];
      }
    }

    // Scans the current bucket in any order: counts a round down, or starts the callback
    // and forgets the key.
    method ScanBucket() returns (fired: map<K, C>)
      requires 0 <= currentIndex < |buckets|
      modifies this
      ensures currentIndex == old(currentIndex)
      ensures fired == Started(old(buckets[currentIndex]), {})
      ensures buckets == old(buckets)[currentIndex := Scanned(old(buckets[currentIndex]), {})]
      ensures bucketIndexes == old(bucketIndexes) - fired.Keys
    {
      fired := map[];
      ghost var bucket := buckets[currentIndex];
      var todo := buckets[currentIndex].Keys;
      assert Scanned(bucket, todo) == bucket;
      while todo != {}
        invariant currentIndex == old(currentIndex) && todo <= bucket.Keys
        invariant fired == Started(bucket, todo)
        invariant buckets == old(buckets)[currentIndex := Scanned(bucket, todo)]
        invariant bucketIndexes == old(bucketIndexes) - fired.Keys
        decreases |todo|
      {
        var k :| k in todo;
        ScanOne(bucket, todo, k);
        todo := todo - {k};
        var task := buckets[currentIndex][k];
        if task.round > 0 {
          buckets := buckets[currentIndex := buckets[currentIndex][k := Task(task.round - 1, task.callback)]];
        } else {
          ForgetOne(old(bucketIndexes), fired, k, task.callback);
          fired := fired[k := task.callback];
          buckets := buckets[currentIndex := buckets[currentIndex] - {k}];
          bucketIndexes := bucketIndexes - {k};
        }
      }
    }

    method HandleTick() returns (fired: map<K, C>)
      requires Valid()
      modifies this
      ensures Valid() && Model() == AfterTick(old(Model())) && fired == Due(old(Model()))
    {
      Turned(buckets, bucketIndexes, currentIndex);
      fired := ScanBucket();
      if currentIndex == bucketsNum - 1 {
        currentIndex := 0;
      } else {
        currentIndex := currentIndex + 1;
      }
    }

    /** The goroutine's loop: whatever it takes next, it behaves as the abstract timer. */
    method Start(events: seq<Event<K, C>>) returns (log: seq<map<K, C>>)
      requires Valid()
      modifies this
      ensures Valid() && Model() == Run(old(Model()), events, tickSeconds)
      ensures |log| == |events|
      ensures forall j :: 0 <= j < |events| ==> log[j] == FiredAt(old(Model()), events, j, tickSeconds)
    {
      log := [];
      for i := 0 to |events|
        invariant Valid() && Model() == Run(old(Model()), events[..i], tickSeconds)
        invariant |log| == i
        invariant forall j :: 0 <= j < i ==> log[j] == FiredAt(old(Model()), events, j, tickSeconds)
      {
        var fired := map[];
        match events[i] {
          case Tick => fired := HandleTick();
          case Add(delay, key, callback) => AddTask(delay, key, callback);
          case Remove(key) => RemoveTask(key);
        }
        assert events[..i + 1][..i] == events[..i];
        log := log + [fired];
      }
      assert events[..|events|] == events;
    }
  }

  method NewTimeWheel<K(==, !new), C>(tick: int, bucketsNum: int) returns (w: Wheel?<K, C>)
    ensures w == null <==> bucketsNum <= 0 || tick < NANOS_PER_SECOND
    ensures w != null ==>
      && fresh(w) && w.Valid() && w.Model() == map[]
      && w.tickSeconds == tick / NANOS_PER_SECOND && w.bucketsNum == bucketsNum
  {
    if bucketsNum <= 0 || tick / NANOS_PER_SECOND < 1 {
      return null;
    }
    w := new Wheel<K, C>(tick, bucketsNum);
  }
}
