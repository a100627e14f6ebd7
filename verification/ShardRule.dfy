/** Range, hash and partition-long sharding: who owns which table, key and hash value. */
module ShardRule {
  import opened Common

  const MAX_NUM_KEY := 0x7FFF_FFFF_FFFF_FFFF
  const PARTITION_LENGTH := 1024

  datatype NumKeyRange = NumKeyRange(start: int, end: int) {
    predicate Contains(i: int) {
      start <= i && (end == MAX_NUM_KEY || i < end)
    }
  }

  ghost predicate NonNegative(a: seq<int>) {
    forall i :: 0 <= i < |a| ==> 0 <= a[i]
  }

  // The sum of the first k numbers: where block k starts.
  function Offset(a: seq<int>, k: nat): int
    requires k <= |a|
  {
    if k == 0 then 0 else Offset(a, k - 1) + a[k - 1]
  }

  lemma {:induction false} OffsetMonotone(a: seq<int>, j: nat, k: nat)
    requires j <= k <= |a| && NonNegative(a)
    ensures 0 <= Offset(a, j) <= Offset(a, k)
  {
    if j < k {
      OffsetMonotone(a, j, k - 1);
    } else if j > 0 {
      OffsetMonotone(a, j - 1, j - 1);
    }
  }

  // ---------------------------------------------------------------------- key ranges

  // Accepted, refused with an error, or a panic in the original.
  datatype Verdict = Accepted | Rejected | Panicked

  /** None is the panic of allocating a negative number of ranges. */
  method ParseNumSharding(locations: seq<int>, tableRowLimit: int) returns (r: Option<seq<NumKeyRange>>)
    ensures r.None? <==> Offset(locations, |locations|) < 0
    ensures r.Some? ==> |r.value| == Offset(locations, |locations|) && IsNumSharding(r.value, tableRowLimit)
  {
    var tableCount := 0;
    for i := 0 to |locations|
      invariant tableCount == Offset(locations, i)
    {
      tableCount := tableCount + locations[i];
    }
    if tableCount < 0 {
      return None;
    }
    var ranges: seq<NumKeyRange> := [];
    for i := 0 to tableCount
      invariant |ranges| == i
      invariant IsNumSharding(ranges, tableRowLimit)
    {
      ranges := ranges + [NumKeyRange(i * tableRowLimit, (i + 1) * tableRowLimit)];
    }
    return Some(ranges);
  }

  ghost predicate IsNumSharding(ranges: seq<NumKeyRange>, limit: int) {
    forall i :: 0 <= i < |ranges| ==> ranges[i] == NumKeyRange(i * limit, (i + 1) * limit)
  }

  lemma {:induction false} Scaled(d: nat, limit: nat)
    requires 0 < d
    ensures limit <= d * limit
  {
    if d > 1 {
      Scaled(d - 1, limit);
      assert d * limit == (d - 1) * limit + limit;
    }
  }

  lemma EndsInOrder(i: int, n: int, limit: int)
    requires 0 < limit && i + 1 <= n
    ensures (i + 1) * limit <= n * limit && (i + 1 < n ==> (i + 1) * limit < n * limit)
  {
    var d := n - (i + 1);
    assert n * limit == (i + 1) * limit + d * limit;
    if d > 0 { Scaled(d, limit); }
  }

  lemma QuotientFits(key: nat, n: nat, limit: int)
    requires 0 < limit && key < n * limit
    ensures 0 <= key / limit < n && key / limit * limit <= key < (key / limit + 1) * limit
  {
    var q := key / limit;
    assert q * limit <= key < (q + 1) * limit;
    if n <= q { EndsInOrder(n - 1, q, limit); }
  }

  /** Every key below tables * limit lies in exactly one range. */
  lemma OneRangePerKey(ranges: seq<NumKeyRange>, limit: int, key: int, i: nat)
    requires IsNumSharding(ranges, limit) && 0 < limit && i < |ranges|
    requires 0 <= key < |ranges| * limit <= MAX_NUM_KEY
    ensures 0 <= key / limit < |ranges|
    ensures ranges[i].Contains(key) <==> i == key / limit
  {
    var q := key / limit;
    QuotientFits(key, |ranges|, limit);
    if i < q {
      EndsInOrder(i, q, limit);
      EndsInOrder(i, |ranges|, limit);
    } else if i > q {
      EndsInOrder(q, i, limit);
    }
  }

  // --------------------------------------------------------------------- table owners

  // Tables start .. start + n all belong to slice i.
  function Block(start: int, n: int, i: int): (b: map<int, int>)
    ensures forall t :: t in b <==> start <= t < start + n
    ensures forall t :: t in b ==> b[t] == i
  {
    if n <= 0 then map[] else Block(start, n - 1, i)[start + n - 1 := i]
  }

  function Owners(locations: seq<int>, k: nat): map<int, int>
    requires k <= |locations|
  {
    if k == 0 then map[]
    else Owners(locations, k - 1) + Block(Offset(locations, k - 1), locations[k - 1], k - 1)
  }

  lemma AddTable(before: map<int, int>, start: int, j: nat, i: int)
    ensures (before + Block(start, j, i))[j + start := i] == before + Block(start, j + 1, i)
  {
  }

  method AddBlock(before: map<int, int>, start: int, n: int, i: int) returns (after: map<int, int>)
    ensures after == before + Block(start, n, i)
  {
    after := before;
    var j := 0;
    while j < n
      invariant 0 <= j && (j <= n || j == 0)
      invariant after == before + Block(start, j, i)
    {
      AddTable(before, start, j, i);
      after := after[j + start := i];
      j := j + 1;
    }
    assert Block(start, j, i) == Block(start, n, i);
  }

  method VerifyHashRuleSliceInfos(locations: seq<int>, slices: seq<string>) returns (r: Option<map<int, int>>)
    ensures r.Some? <==> |locations| == |slices|
    ensures r.Some? ==> r.value == Owners(locations, |locations|)
  {
    if |locations| != |slices| {
      return None;
    }
    var sumTables, tableToSlice := 0, map[];
    for i := 0 to |locations|
      invariant sumTables == Offset(locations, i) && tableToSlice == Owners(locations, i)
    {
      tableToSlice := AddBlock(tableToSlice, sumTables, locations[i], i);
      sumTables := sumTables + locations[i];
    }
    return Some(tableToSlice);
  }

  /** With non-negative locations the tables are exactly 0 .. sum, and slice i owns exactly
      the contiguous block of its configured size. */
  lemma {:induction false} OwnersAreBlocks(locations: seq<int>, k: nat, t: int, i: nat)
    requires NonNegative(locations) && k <= |locations| && i < |locations|
    ensures t in Owners(locations, k) <==> 0 <= t < Offset(locations, k)
    ensures (t in Owners(locations, k) && Owners(locations, k)[t] == i) <==>
            (i < k && Offset(locations, i) <= t < Offset(locations, i + 1))
  {
    if k > 0 {
      OwnersAreBlocks(locations, k - 1, t, i);
      OffsetMonotone(locations, k - 1, k);
      if i < k { OffsetMonotone(locations, i, k - 1); }
      if i < k - 1 { OffsetMonotone(locations, i + 1, k - 1); }
    }
  }

  lemma {:induction false} CountInterval(lo: int, n: nat, s: set<int>)
    requires forall t :: t in s <==> lo <= t < lo + n
    ensures |s| == n
  {
    if n > 0 {
      var last := lo + n - 1;
      CountInterval(lo, n - 1, s - {last});
    } else {
      assert forall t :: t !in s;
      assert s == {};
    }
  }

  function TablesOf(owners: map<int, int>, i: int): set<int> {
    set t | t in owners && owners[t] == i
  }

  // ------------------------------------------------------- any integers as locations

  // Table t is one of those the rule means for slice i.
  predicate InBlock(locations: seq<int>, i: nat, t: int)
    requires i < |locations|
  {
    Offset(locations, i) <= t < Offset(locations, i + 1)
  }

  // The last of the first k blocks that holds table t, if any does.
  ghost predicate LastBlock(locations: seq<int>, k: nat, t: int, i: nat)
    requires i < k <= |locations|
  {
    InBlock(locations, i, t) && forall j :: i < j < k ==> !InBlock(locations, j, t)
  }

  /** For any integers a table belongs to the last slice whose block holds it. */
  lemma {:induction false} LastBlockOwns(locations: seq<int>, k: nat, t: int, i: nat)
    requires i < k <= |locations|
    ensures (t in Owners(locations, k) && Owners(locations, k)[t] == i) <==> LastBlock(locations, k, t, i)
    decreases k
  {
    var before := Owners(locations, k - 1);
    if InBlock(locations, k - 1, t) {
      assert t in Owners(locations, k) && Owners(locations, k)[t] == k - 1;
    } else if i < k - 1 {
      LastBlockOwns(locations, k - 1, t, i);
    } else if t in before {
      OnlyEarlier(locations, k - 1, t);
    }
  }

  // The first k blocks give nothing to slices from k on.
  lemma {:induction false} OnlyEarlier(locations: seq<int>, k: nat, t: int)
    requires k <= |locations| && t in Owners(locations, k)
    ensures 0 <= Owners(locations, k)[t] < k
  {
    if !InBlock(locations, k - 1, t) { OnlyEarlier(locations, k - 1, t); }
  }

  /** Slice i keeps its whole block. */
  ghost predicate KeepsBlock(locations: seq<int>, i: nat)
    requires i < |locations|
  {
    forall t :: InBlock(locations, i, t) ==>
      t in Owners(locations, |locations|) && Owners(locations, |locations|)[t] == i
  }

  // Two blocks share a table; neither can be empty then.
  predicate Overlap(locations: seq<int>, i: nat, j: nat)
    requires i < |locations| && j < |locations|
  {
    && locations[i] > 0 && locations[j] > 0
    && Offset(locations, i) < Offset(locations, j + 1) && Offset(locations, j) < Offset(locations, i + 1)
  }

  lemma OverlapShares(locations: seq<int>, i: nat, j: nat)
    requires i < |locations| && j < |locations|
    ensures Overlap(locations, i, j) <==> exists t :: InBlock(locations, i, t) && InBlock(locations, j, t)
  {
    if Overlap(locations, i, j) {
      var a, b := Offset(locations, i), Offset(locations, j);
      var t := if a <= b then b else a;
      assert InBlock(locations, i, t) && InBlock(locations, j, t);
    }
  }

  /** A slice keeps its whole block if and only if no later block overlaps it. */
  lemma KeepsBlockIff(locations: seq<int>, i: nat)
    requires i < |locations|
    ensures KeepsBlock(locations, i) <==> forall j :: i < j < |locations| ==> !Overlap(locations, i, j)
  {
    var n := |locations|;
    if j :| i < j < n && Overlap(locations, i, j) {
      OverlapShares(locations, i, j);
      var t :| InBlock(locations, i, t) && InBlock(locations, j, t);
      LastBlockOwns(locations, n, t, i);
      assert !LastBlock(locations, n, t, i);
    } else {
      forall t | InBlock(locations, i, t) ensures t in Owners(locations, n) && Owners(locations, n)[t] == i {
        forall j | i < j < n ensures !InBlock(locations, j, t) { OverlapShares(locations, i, j); }
        LastBlockOwns(locations, n, t, i);
      }
    }
  }

  /** Slice i owns exactly as many tables as its block has, if and only if no later block
      overlaps it. */
  lemma KeepsSizeIff(locations: seq<int>, i: nat)
    requires i < |locations|
    ensures |TablesOf(Owners(locations, |locations|), i)| == (if locations[i] < 0 then 0 else locations[i]) <==>
            forall j :: i < j < |locations| ==> !Overlap(locations, i, j)
  {
    var own := TablesOf(Owners(locations, |locations|), i);
    var n := if locations[i] < 0 then 0 else locations[i];
    var block := Block(Offset(locations, i), n, i).Keys;
    CountInterval(Offset(locations, i), n, block);
    forall t | t in own ensures t in block {
      LastBlockOwns(locations, |locations|, t, i);
    }
    KeepsBlockIff(locations, i);
    if KeepsBlock(locations, i) {
      forall t | t in block ensures t in own { assert InBlock(locations, i, t); }
      assert own == block;
    } else {
      var t :| InBlock(locations, i, t) && t !in own;
      assert own <= block - {t};
      SmallerSet(own, block - {t});
    }
  }

  lemma SmallerSet(a: set<int>, b: set<int>)
    requires a <= b
    ensures |a| <= |b|
  {
    assert a + (b - a) == b;
  }

  // Between two blocks below and above a table, some block in between holds it.
  lemma {:induction false} Crossing(locations: seq<int>, i: nat, j: nat, t: int) returns (m: nat)
    requires i <= j <= |locations| && Offset(locations, i) <= t < Offset(locations, j)
    ensures i <= m < j && InBlock(locations, m, t)
    decreases j - i
  {
    if Offset(locations, j - 1) <= t { m := j - 1; } else { m := Crossing(locations, i, j - 1, t); }
  }

  lemma {:induction false} OwnersAreCovered(locations: seq<int>, k: nat, t: int)
    requires k <= |locations|
    ensures t in Owners(locations, k) <==> exists i :: 0 <= i < k && InBlock(locations, i, t)
  {
    if k > 0 {
      OwnersAreCovered(locations, k - 1, t);
      assert t in Owners(locations, k) <==> t in Owners(locations, k - 1) || InBlock(locations, k - 1, t);
    }
  }

  // Every running sum lies between 0 and the total.
  predicate StaysInside(locations: seq<int>) {
    forall i :: 0 <= i <= |locations| ==> 0 <= Offset(locations, i) <= Offset(locations, |locations|)
  }

  // The tables below the total always have an owner.
  lemma TablesBelowSum(locations: seq<int>, t: int)
    requires 0 <= t < Offset(locations, |locations|)
    ensures t in Owners(locations, |locations|)
  {
    var m := Crossing(locations, 0, |locations|, t);
    OwnersAreCovered(locations, |locations|, t);
  }

  // A running sum outside gives a table outside.
  lemma TableOutside(locations: seq<int>, i: nat) returns (t: int)
    requires i <= |locations| && 0 <= Offset(locations, |locations|)
    requires !(0 <= Offset(locations, i) <= Offset(locations, |locations|))
    ensures t in Owners(locations, |locations|) && !(0 <= t < Offset(locations, |locations|))
  {
    var n := |locations|;
    var m: nat;
    if Offset(locations, i) < 0 {
      t := -1;
      m := Crossing(locations, i, n, t);
    } else {
      t := Offset(locations, n);
      m := Crossing(locations, 0, i, t);
    }
    OwnersAreCovered(locations, n, t);
  }

  lemma TableInside(locations: seq<int>, t: int)
    requires StaysInside(locations) && t in Owners(locations, |locations|)
    ensures 0 <= t < Offset(locations, |locations|)
  {
    OwnersAreCovered(locations, |locations|, t);
    var i :| 0 <= i < |locations| && InBlock(locations, i, t);
    assert 0 <= Offset(locations, i) && Offset(locations, i + 1) <= Offset(locations, |locations|);
  }

  /** The tables are exactly 0 .. sum, and as many as the sum, if and only if every running
      sum lies between 0 and the total. */
  lemma TablesAreSumIff(locations: seq<int>)
    requires 0 <= Offset(locations, |locations|)
    ensures StaysInside(locations) <==>
            forall t :: t in Owners(locations, |locations|) <==> 0 <= t < Offset(locations, |locations|)
    ensures StaysInside(locations) <==> |Owners(locations, |locations|)| == Offset(locations, |locations|)
  {
    var n, keys := |locations|, Owners(locations, |locations|).Keys;
    var sum := Offset(locations, n);
    var below := Block(0, sum, 0).Keys;
    CountInterval(0, sum, below);
    forall t | 0 <= t < sum ensures t in keys { TablesBelowSum(locations, t); }
    assert |Owners(locations, n)| == |keys|;
    if StaysInside(locations) {
      forall t | t in keys ensures 0 <= t < sum { TableInside(locations, t); }
      assert keys == below;
    } else {
      var i :| 0 <= i <= n && !(0 <= Offset(locations, i) <= sum);
      var t := TableOutside(locations, i);
      assert below <= keys - {t};
      SmallerSet(below, keys - {t});
    }
  }

  /** Under a rule whose tables are 0 .. sum, every slice keeps its block if and only if no
      location is negative. */
  lemma AcceptedKeepsBlocksIff(locations: seq<int>)
    requires StaysInside(locations)
    ensures NonNegative(locations) <==> forall i :: 0 <= i < |locations| ==> KeepsBlock(locations, i)
  {
    if NonNegative(locations) {
      forall i | 0 <= i < |locations| ensures KeepsBlock(locations, i) {
        forall t | InBlock(locations, i, t)
          ensures t in Owners(locations, |locations|) && Owners(locations, |locations|)[t] == i
        {
          OwnersAreBlocks(locations, |locations|, t, i);
        }
      }
    } else {
      var i :| 0 <= i < |locations| && locations[i] < 0;
      var m := SomeBlockLost(locations, i);
    }
  }

  // Below a negative location some table is passed twice, so its first slice loses it.
  lemma SomeBlockLost(locations: seq<int>, i: nat) returns (m: nat)
    requires StaysInside(locations) && i < |locations| && locations[i] < 0
    ensures m < |locations| && !KeepsBlock(locations, m)
  {
    var t := Offset(locations, i + 1);
    assert 0 <= t < Offset(locations, i) <= Offset(locations, |locations|);
    m := Crossing(locations, 0, i, t);
    var later := Crossing(locations, i + 1, |locations|, t);
    KeepsBlockIff(locations, m);
    OverlapShares(locations, m, later);
    assert Overlap(locations, m, later);
  }

  /** The range check accepts 2, -1, 3, and slice 0 loses one of its two tables. */
  lemma NegativeLocationLosesTable()
    ensures var l := [2, -1, 3]; StaysInside(l) && !KeepsBlock(l, 0) && TablesOf(Owners(l, 3), 0) == {0}
  {
    var l := [2, -1, 3];
    assert Offset(l, 1) == 2;
    assert Offset(l, 2) == 1;
    assert Offset(l, 3) == 4;
    KeepsBlockIff(l, 0);
    assert Overlap(l, 0, 2);
    forall t ensures t in TablesOf(Owners(l, 3), 0) <==> t == 0 {
      LastBlockOwns(l, 3, t, 0);
      assert InBlock(l, 2, t) <==> 1 <= t < 4;
    }
  }

  // -------------------------------------------------------------------- the range rule

  /** The range rule panics on a negative sum; otherwise it accepts exactly equal counts with
      every running sum between 0 and the total. */
  method VerifyRangeRule(locations: seq<int>, slices: seq<string>, tableRowLimit: int) returns (r: Verdict)
    ensures r.Panicked? <==> |locations| == |slices| && Offset(locations, |locations|) < 0
    ensures r.Accepted? <==>
      |locations| == |slices| && 0 <= Offset(locations, |locations|) && StaysInside(locations)
  {
    var tableToSlice := VerifyHashRuleSliceInfos(locations, slices);
    if tableToSlice.None? {
      return Rejected;
    }
    var ranges := ParseNumSharding(locations, tableRowLimit);
    if ranges.None? {
      return Panicked;
    }
    TablesAreSumIff(locations);
    return if |ranges.value| == |tableToSlice.value| then Accepted else Rejected;
  }

  /** From key to slice: an accepted range rule sends every key below tables * limit to
      exactly one table and that table to exactly one slice. */
  lemma OneSlicePerKey(locations: seq<int>, ranges: seq<NumKeyRange>, limit: int, key: int, t: nat, i: nat)
    requires StaysInside(locations) && IsNumSharding(ranges, limit) && |ranges| == Offset(locations, |locations|)
    requires 0 < limit && 0 <= key < |ranges| * limit <= MAX_NUM_KEY && t < |ranges| && i < |locations|
    ensures key / limit in Owners(locations, |locations|) && t in Owners(locations, |locations|)
    ensures (ranges[t].Contains(key) && Owners(locations, |locations|)[t] == i) <==>
            (t == key / limit && LastBlock(locations, |locations|, t, i))
  {
    OneRangePerKey(ranges, limit, key, t);
    TablesBelowSum(locations, t);
    TablesBelowSum(locations, key / limit);
    LastBlockOwns(locations, |locations|, t, i);
  }

  // ------------------------------------------------------------------ partition long

  function Dot(counts: seq<int>, lengths: seq<int>, k: nat): int
    requires k <= |counts| == |lengths|
  {
    if k == 0 then 0 else Dot(counts, lengths, k - 1) + counts[k - 1] * lengths[k - 1]
  }

  // Each boundary lies one of the configured lengths above the last.
  ghost predicate StepsBy(ai: seq<int>, upto: nat, lengths: seq<int>)
    requires upto < |ai|
  {
    ai[0] == 0 && forall i :: 0 <= i < upto ==> ai[i + 1] - ai[i] in lengths
  }

  /** Panics exactly when the lists match the shard number but some count is negative: then
      the boundaries overrun their array. */
  method VerifyPartitionLong(shardNum: nat, counts: seq<int>, lengths: seq<int>)
    returns (r: Verdict, ai: seq<int>)
    ensures r.Panicked? <==>
      |counts| == |lengths| && Offset(counts, |counts|) == shardNum && !NonNegative(counts)
    ensures r.Accepted? <==>
      |counts| == |lengths| && Offset(counts, |counts|) == shardNum && NonNegative(counts) &&
      Dot(counts, lengths, |counts|) == PARTITION_LENGTH
    ensures r.Accepted? ==>
      |ai| == shardNum + 1 && StepsBy(ai, shardNum, lengths) && ai[shardNum] == PARTITION_LENGTH
  {
    ai := [];
    if |counts| != |lengths| {
      return Rejected, [];
    }
    var segmentLength := 0;
    for i := 0 to |counts|
      invariant segmentLength == Offset(counts, i)
    {
      segmentLength := segmentLength + counts[i];
    }
    if segmentLength != shardNum {
      return Rejected, [];
    }
    ai := seq(segmentLength + 1, _ => 0);
    var index := 0;
    for i := 0 to |counts|
      invariant |ai| == shardNum + 1 && index == Climbed(counts, i) <= shardNum && StepsBy(ai, index, lengths)
      invariant NonNegativeTo(counts, i) ==> ai[index] == Dot(counts, lengths, i)
    {
      ghost var base, start := ai[index], index;
      var j := 0;
      while j < counts[i]
        invariant 0 <= j && (j <= counts[i] || j == 0) && index == start + j <= shardNum && |ai| == shardNum + 1
        invariant StepsBy(ai, index, lengths) && ai[index] == base + j * lengths[i]
      {
        if index + 1 >= |ai| {
          Overrun(counts, i, j, shardNum);
          return Panicked, [];
        }
        assert lengths[i] in lengths;
        ai := ai[index + 1 := ai[index] + lengths[i]];
        index := index + 1;
        assert (j + 1) * lengths[i] == j * lengths[i] + lengths[i];
        j := j + 1;
      }
    }
    ClimbedAll(counts, |counts|);
    NoneNegativeClimbs(counts);
    r := if ai[|ai| - 1] == PARTITION_LENGTH then Accepted else Rejected;
  }

  // The sum of the positive ones among the first k numbers: how far the index has climbed.
  function Climbed(a: seq<int>, k: nat): nat
    requires k <= |a|
  {
    if k == 0 then 0 else Climbed(a, k - 1) + if a[k - 1] > 0 then a[k - 1] else 0
  }

  ghost predicate NonNegativeTo(a: seq<int>, k: nat)
    requires k <= |a|
  {
    forall i :: 0 <= i < k ==> 0 <= a[i]
  }

  // It climbs exactly the sum if and only if no number is negative, and never less.
  lemma {:induction false} ClimbedAll(a: seq<int>, k: nat)
    requires k <= |a|
    ensures Offset(a, k) <= Climbed(a, k) && (Climbed(a, k) == Offset(a, k) <==> NonNegativeTo(a, k))
  {
    if k > 0 {
      ClimbedAll(a, k - 1);
      assert NonNegativeTo(a, k) <==> NonNegativeTo(a, k - 1) && a[k - 1] >= 0;
    }
  }

  lemma {:induction false} ClimbedMonotone(a: seq<int>, j: nat, k: nat)
    requires j <= k <= |a|
    ensures Climbed(a, j) <= Climbed(a, k)
  {
    if j < k { ClimbedMonotone(a, j, k - 1); }
  }

  // The index has reached the end of the array and a further boundary is due.
  lemma Overrun(counts: seq<int>, i: nat, j: int, shardNum: nat)
    requires i < |counts| && 0 <= j < counts[i] && Offset(counts, |counts|) == shardNum
    requires Climbed(counts, i) + j >= shardNum
    ensures !NonNegative(counts)
  {
    ClimbsAbove(counts, i, |counts|);
    NoneNegativeClimbs(counts);
  }

  lemma ClimbsAbove(counts: seq<int>, i: nat, n: nat)
    requires i < n <= |counts| && 0 < counts[i]
    ensures Climbed(counts, i) + counts[i] <= Climbed(counts, n)
  {
    ClimbedMonotone(counts, i + 1, n);
  }

  lemma NoneNegativeClimbs(counts: seq<int>)
    ensures Climbed(counts, |counts|) == Offset(counts, |counts|) <==> NonNegative(counts)
  {
    ClimbedAll(counts, |counts|);
  }

  lemma {:induction false} BoundariesIncrease(ai: seq<int>, lengths: seq<int>, i: nat, j: nat)
    requires i < j < |ai| && StepsBy(ai, |ai| - 1, lengths)
    requires forall k :: 0 <= k < |lengths| ==> 0 < lengths[k]
    ensures ai[i] < ai[j]
  {
    assert ai[j - 1 + 1] - ai[j - 1] in lengths;
    if i < j - 1 { BoundariesIncrease(ai, lengths, i, j - 1); }
  }

  lemma {:induction false} FindSegment(ai: seq<int>, hash: int, upto: nat) returns (i: nat)
    requires upto < |ai| && ai[0] <= hash < ai[upto]
    ensures i < upto && ai[i] <= hash < ai[i + 1]
  {
    if hash >= ai[upto - 1] { i := upto - 1; } else { i := FindSegment(ai, hash, upto - 1); }
  }

  /** With positive lengths the accepted boundaries split 0 .. 1024: every hash value falls
      in one segment, and in no other. */
  lemma OneSegmentPerHash(ai: seq<int>, lengths: seq<int>, hash: int) returns (i: nat)
    requires |ai| > 0 && StepsBy(ai, |ai| - 1, lengths) && ai[|ai| - 1] == PARTITION_LENGTH
    requires forall k :: 0 <= k < |lengths| ==> 0 < lengths[k]
    requires 0 <= hash < PARTITION_LENGTH
    ensures i < |ai| - 1
    ensures forall k :: 0 <= k < |ai| - 1 ==> (ai[k] <= hash < ai[k + 1] <==> k == i)
  {
    i := FindSegment(ai, hash, |ai| - 1);
    forall k | 0 <= k < |ai| - 1 && ai[k] <= hash < ai[k + 1] ensures k == i {
      if k < i && k + 1 < i { BoundariesIncrease(ai, lengths, k + 1, i); }
      if i < k && i + 1 < k { BoundariesIncrease(ai, lengths, i + 1, k); }
    }
  }
}
