/** Rolling rates: rings that keep the last samples, and the differences read from them. */
module Rates {
  import opened Common

  // -------------------------------------------------------------------------- the ring

  function Retained(total: nat, n: nat): nat {
    if total <= n then total else n
  }

  function LastN(s: seq<int>, n: nat): (r: seq<int>)
    ensures |r| == Retained(|s|, n)
  {
    if |s| <= n then s else s[|s| - n..]
  }

  /** Keeping the last n after every addition keeps the last n of everything added. */
  lemma LastNAgain(s: seq<int>, v: int, n: nat)
    requires 0 < n
    ensures LastN(LastN(s, n) + [v], n) == LastN(s + [v], n)
  {
  }

  lemma Wrap(x: int, c: int)
    requires 0 <= x < 2 * c
    ensures x % c == if x < c then x else x - c
  {
    if x < c { ModUnique(x, c, 0, x); } else { ModUnique(x, c, 1, x - c); }
  }

  // Overwriting the oldest value and starting after it.
  lemma Overwritten(values: seq<int>, p: nat, val: int)
    requires p < |values|
    ensures var after := values[p := val];
            LastN(values[p..] + values[..p] + [val], |values|) == after[p + 1..] + after[..p + 1]
  {
  }

  class Ring {
    const capacity: nat
    var position: nat
    var values: seq<int>

    ghost predicate Valid()
      reads this
    {
      0 < capacity && |values| <= capacity && position < capacity && (|values| < capacity ==> position == 0)
    }

    // The values from the oldest to the newest.
    ghost function Contents(): seq<int>
      requires Valid()
      reads this
    {
      if |values| < capacity then values else values[position..] + values[..position]
    }

    constructor (capacity: nat)
      requires 0 < capacity
      ensures Valid() && this.capacity == capacity && Contents() == []
    {
      this.capacity, position, values := capacity, 0, [];
    }

    method Add(val: int)
      requires Valid()
      modifies this
      ensures Valid() && Contents() == LastN(old(Contents()) + [val], capacity)
    {
      if |values| == capacity {
        Wrap(position + 1, capacity);
        Overwritten(values, position, val);
        values := values[position := val];
        position := (position + 1) % capacity;
      } else {
        values := values + [val];
      }
    }

    method Values() returns (r: seq<int>)
      requires Valid()
      ensures r == Contents()
    {
      r := [];
      for i := 0 to |values|
        invariant |r| == i && forall j :: 0 <= j < i ==> r[j] == Contents()[j]
      {
        Wrap(position + i, capacity);
        r := r + [values[(position + i) % capacity]];
      }
    }
  }

  // ------------------------------------------------------------------------ the history

  datatype Sample = Sample(time: int, counts: map<string, int>)

  function Times(h: seq<Sample>): seq<int> {
    seq(|h|, i requires 0 <= i < |h| => h[i].time)
  }

  // A category seen for the first time starts from zero.
  function Pushed(s: seq<int>, v: int): (r: seq<int>)
    ensures r != []
  {
    (if s == [] then [0] else s) + [v]
  }

  // Everything ever recorded of a category, without forgetting; nothing if never seen.
  function Series(h: seq<Sample>, k: string): seq<int> {
    if h == [] then []
    else
      var before, last := Series(h[..|h| - 1], k), h[|h| - 1].counts;
      if k in last then Pushed(before, last[k]) else before
  }

  // How GetCount reads differences off the values of one category, for m time stamps.
  function Deltas(m: nat, values: seq<int>): seq<int>
    requires 0 < m
  {
    seq(m - 1, j requires 0 <= j < m - 1 =>
      var at := |values| - m + j + 1;
      if at <= 0 then 0 else values[at] - values[at - 1])
  }

  function CountAt(h: seq<Sample>, k: string, i: int): int
    requires 0 <= i < |h|
  {
    if k in h[i].counts then h[i].counts[k] else 0
  }

  // The counts of a category, snapshots without it left out.
  function Recorded(h: seq<Sample>, k: string): seq<int> {
    if h == [] then []
    else Recorded(h[..|h| - 1], k) + (if k in h[|h| - 1].counts then [h[|h| - 1].counts[k]] else [])
  }

  /** What is kept of a category is zero followed by its recorded counts. */
  lemma {:induction false} SeriesIsRecord(h: seq<Sample>, k: string)
    ensures Series(h, k) == if Recorded(h, k) == [] then [] else [0] + Recorded(h, k)
  {
    if h != [] { SeriesIsRecord(h[..|h| - 1], k); }
  }

  lemma LastNAt(s: seq<int>, n: nat, back: nat)
    requires 0 < back <= |LastN(s, n)|
    ensures LastN(s, n)[|LastN(s, n)| - back] == s[|s| - back]
  {
  }

  // What GetCount reports e entries before the newest, with room for n samples.
  function Reported(h: seq<Sample>, k: string, n: nat, e: nat): int
    requires 0 < n && e + 1 < Retained(|h|, n)
  {
    var m := Retained(|h|, n);
    Deltas(m, LastN(Series(h, k), n))[m - 2 - e]
  }

  lemma EntryFromNewest(s: seq<int>, n: nat, m: nat, e: nat)
    requires 0 < n && e + 1 < m <= n
    ensures Deltas(m, LastN(s, n))[m - 2 - e] == if e + 1 < |s| then s[|s| - 1 - e] - s[|s| - 2 - e] else 0
  {
    if e + 1 < |s| {
      LastNAt(s, n, e + 1);
      LastNAt(s, n, e + 2);
    }
  }

  function NthFromEnd(r: seq<int>, e: nat): int {
    if e < |r| then r[|r| - 1 - e] else 0
  }

  // The growth up to the e-th record before the newest.
  function Growth(r: seq<int>, e: nat): int {
    NthFromEnd(r, e) - NthFromEnd(r, e + 1)
  }

  lemma ZeroFirst(r: seq<int>, s: seq<int>, e: nat)
    requires s == if r == [] then [] else [0] + r
    ensures (if e + 1 < |s| then s[|s| - 1 - e] - s[|s| - 2 - e] else 0) == Growth(r, e)
  {
  }

  /** Whatever snapshots a category skips, the entries are the differences of adjacent recorded
      counts, the newest first, whenever they were taken. */
  lemma ReportsRecorded(h: seq<Sample>, k: string, n: nat, e: nat)
    requires 0 < n && e + 1 < Retained(|h|, n)
    ensures Reported(h, k, n, e) == Growth(Recorded(h, k), e)
  {
    SeriesIsRecord(h, k);
    ZeroFirst(Recorded(h, k), Series(h, k), e);
    EntryFromNewest(Series(h, k), n, Retained(|h|, n), e);
  }

  // Of the last m snapshots none lacks a category that an earlier one had.
  ghost predicate Gapless(h: seq<Sample>, k: string, m: nat) {
    forall i, before :: |h| - m <= i < |h| && 0 <= before < i && k !in h[i].counts ==> k !in h[before].counts
  }

  lemma {:induction false} NotRecorded(h: seq<Sample>, k: string)
    requires forall i :: 0 <= i < |h| ==> k !in h[i].counts
    ensures Recorded(h, k) == []
  {
    if h != [] { NotRecorded(h[..|h| - 1], k); }
  }

  lemma {:induction false} SomeRecorded(h: seq<Sample>, k: string, i: nat)
    requires i < |h| && k in h[i].counts
    ensures Recorded(h, k) != []
  {
    if i < |h| - 1 { SomeRecorded(h[..|h| - 1], k, i); }
  }

  // A category present from the x-th snapshot on: these counts are the newest records.
  lemma {:induction false} NewestRecorded(h: seq<Sample>, k: string, x: nat, e: nat)
    requires x <= |h| && forall i :: x <= i < |h| ==> k in h[i].counts
    ensures e < |h| - x ==> NthFromEnd(Recorded(h, k), e) == CountAt(h, k, |h| - 1 - e)
    ensures e >= |h| - x ==> NthFromEnd(Recorded(h, k), e) == NthFromEnd(Recorded(h[..x], k), e - (|h| - x))
    decreases |h| - x, e
  {
    if x == |h| {
      assert h[..x] == h;
    } else if e > 0 {
      var before := h[..|h| - 1];
      NewestRecorded(before, k, x, e - 1);
      assert before[..x] == h[..x];
    }
  }

  // No more records than snapshots.
  lemma {:induction false} FewRecorded(h: seq<Sample>, k: string, x: nat)
    requires x <= |h| && forall i :: 0 <= i < x ==> k !in h[i].counts
    ensures |Recorded(h, k)| <= |h| - x
  {
    if x == |h| { NotRecorded(h, k); } else { FewRecorded(h[..|h| - 1], k, x); }
  }

  function Difference(h: seq<Sample>, k: string, e: nat): int
    requires e + 1 < |h|
  {
    CountAt(h, k, |h| - 1 - e) - CountAt(h, k, |h| - 2 - e)
  }

  lemma GaplessGrowth(h: seq<Sample>, k: string, m: nat, e: nat)
    requires e + 1 < m <= |h| && Gapless(h, k, m)
    ensures Growth(Recorded(h, k), e) == Difference(h, k, e)
  {
    var x := |h| - 1 - e;
    if k in h[x - 1].counts {
      NewestRecorded(h, k, x - 1, e);
      NewestRecorded(h, k, x - 1, e + 1);
    } else if k in h[x].counts {
      NewestRecorded(h, k, x, e);
      NewestRecorded(h, k, x, e + 1);
      NotRecorded(h[..x], k);
    } else {
      FewRecorded(h, k, x + 1);
    }
  }

  /** Without a gap every entry is the difference of the counts at two adjacent retained
      snapshots, zero standing for a count not yet there. */
  lemma DeltasAreDifferences(h: seq<Sample>, k: string, n: nat, e: nat)
    requires 0 < n && e + 1 < Retained(|h|, n) && Gapless(h, k, Retained(|h|, n))
    ensures Reported(h, k, n, e) == Difference(h, k, e)
  {
    ReportsRecorded(h, k, n, e);
    GaplessGrowth(h, k, Retained(|h|, n), e);
  }

  // A counter that was never reset: its recorded counts are positive and grow.
  ghost predicate Rising(r: seq<int>) {
    (forall i :: 0 <= i < |r| ==> 0 < r[i]) && forall i, j :: 0 <= i < j < |r| ==> r[i] < r[j]
  }

  ghost predicate ReportsDifferences(h: seq<Sample>, k: string, n: nat)
    requires 0 < n
  {
    forall e: nat :: e + 1 < Retained(|h|, n) ==> Reported(h, k, n, e) == Difference(h, k, e)
  }

  lemma {:induction false} PrefixRises(h: seq<Sample>, k: string, x: nat)
    requires Rising(Recorded(h, k)) && x <= |h|
    ensures Rising(Recorded(h[..x], k))
  {
    if x == |h| {
      assert h[..x] == h;
    } else {
      var r, before := Recorded(h, k), Recorded(h[..|h| - 1], k);
      assert r[..|before|] == before;
      PrefixRises(h[..|h| - 1], k, x);
      assert h[..|h| - 1][..x] == h[..x];
    }
  }

  lemma RisingCount(h: seq<Sample>, k: string, i: nat)
    requires Rising(Recorded(h, k)) && i < |h|
    ensures 0 <= CountAt(h, k, i)
  {
    PrefixRises(h, k, i + 1);
    var r := Recorded(h[..i + 1], k);
    assert k in h[i].counts ==> r[|r| - 1] == h[i].counts[k];
  }

  // The category is missing in the newest snapshot: its last increase is reported again.
  lemma MissingNow(h: seq<Sample>, k: string, before: nat)
    requires 1 < |h| && Rising(Recorded(h, k))
    requires k !in h[|h| - 1].counts && before < |h| && k in h[before].counts
    ensures Growth(Recorded(h, k), 0) != Difference(h, k, 0)
  {
    SomeRecorded(h, k, before);
    RisingCount(h, k, |h| - 2);
  }

  // It came back at snapshot x after a gap: the difference to the count before the gap is
  // reported.
  lemma MissingBefore(h: seq<Sample>, k: string, x: nat, before: nat)
    requires 0 < x < |h| && Rising(Recorded(h, k))
    requires k !in h[x - 1].counts && before < x - 1 && k in h[before].counts
    requires forall i :: x <= i < |h| ==> k in h[i].counts
    ensures Growth(Recorded(h, k), |h| - 1 - x) != Difference(h, k, |h| - 1 - x)
  {
    var e := |h| - 1 - x;
    NewestRecorded(h, k, x, e);
    NewestRecorded(h, k, x, e + 1);
    SomeRecorded(h[..x], k, before);
    PrefixRises(h, k, x);
  }

  // The latest gap among the last m snapshots.
  lemma {:induction false} LatestGap(h: seq<Sample>, k: string, m: nat, i: nat, before: nat) returns (g: nat)
    requires m <= |h| && |h| - m <= i < |h| && before < i && k !in h[i].counts && k in h[before].counts
    ensures i <= g < |h| && k !in h[g].counts && forall y :: g < y < |h| ==> k in h[y].counts
    decreases |h| - i
  {
    if y :| i < y < |h| && k !in h[y].counts {
      g := LatestGap(h, k, m, y, before);
    } else {
      g := i;
    }
  }

  lemma GapShows(h: seq<Sample>, k: string, n: nat, i: nat, before: nat)
    requires 0 < n && 1 < Retained(|h|, n) && Rising(Recorded(h, k))
    requires |h| - Retained(|h|, n) <= i < |h| && before < i && k !in h[i].counts && k in h[before].counts
    ensures !ReportsDifferences(h, k, n)
  {
    var g := LatestGap(h, k, Retained(|h|, n), i, before);
    if g == |h| - 1 {
      MissingNow(h, k, before);
      EntryShows(h, k, n, 0);
    } else {
      MissingBefore(h, k, g + 1, before);
      EntryShows(h, k, n, |h| - 2 - g);
    }
  }

  lemma EntryShows(h: seq<Sample>, k: string, n: nat, e: nat)
    requires 0 < n && e + 1 < Retained(|h|, n) && Growth(Recorded(h, k), e) != Difference(h, k, e)
    ensures !ReportsDifferences(h, k, n)
  {
    ReportsRecorded(h, k, n, e);
  }

  /** For a growing counter the entries are the differences between adjacent snapshots if and
      only if the category has no gap among the retained snapshots. */
  lemma DifferencesIff(h: seq<Sample>, k: string, n: nat)
    requires 0 < n && 1 < Retained(|h|, n) && Rising(Recorded(h, k))
    ensures ReportsDifferences(h, k, n) <==> Gapless(h, k, Retained(|h|, n))
  {
    var m := Retained(|h|, n);
    if Gapless(h, k, m) {
      forall e: nat | e + 1 < m ensures Reported(h, k, n, e) == Difference(h, k, e) {
        DeltasAreDifferences(h, k, n, e);
      }
    } else {
      var i, before :| |h| - m <= i < |h| && 0 <= before < i && k !in h[i].counts && k in h[before].counts;
      GapShows(h, k, n, i, before);
    }
  }

  /** A category that skips the middle one of three snapshots is reported to have grown in the
      first interval, in which it vanished. */
  lemma SkippedSnapshot(k: string)
    ensures var h := [Sample(1, map[k := 1]), Sample(2, map[]), Sample(3, map[k := 5])];
      Reported(h, k, 3, 1) == 1 && Difference(h, k, 1) == -1
  {
    var h := [Sample(1, map[k := 1]), Sample(2, map[]), Sample(3, map[k := 5])];
    ReportsRecorded(h, k, 3, 1);
    assert h[..2][..1] == h[..1] && h[..1][..0] == [];
    assert Recorded(h[..1], k) == [1] && Recorded(h[..2], k) == [1] && Recorded(h, k) == [1, 5];
  }

  // ----------------------------------------------------------------------- the recorder

  // What one snapshot makes of the ring of a category.
  function Kept(s: seq<int>, counts: map<string, int>, k: string, n: nat): seq<int> {
    if k in counts then LastN(Pushed(s, counts[k]), n) else s
  }

  lemma SeriesFollows(h: seq<Sample>, now: Sample, n: nat, k: string)
    requires 0 < n
    ensures LastN(Series(h + [now], k), n) == Kept(LastN(Series(h, k), n), now.counts, k, n)
  {
    assert (h + [now])[..|h|] == h;
    if k in now.counts && Series(h, k) != [] {
      LastNAgain(Series(h, k), now.counts[k], n);
    }
  }

  lemma TimesFollow(h: seq<Sample>, now: Sample, n: nat)
    requires 0 < n
    ensures LastN(LastN(Times(h), n) + [now.time], n) == LastN(Times(h + [now]), n)
  {
    assert Times(h + [now]) == Times(h) + [now.time];
    LastNAgain(Times(h), now.time, n);
  }

  class Rates {
    const samples: nat
    var timeStamps: Ring
    var counts: map<string, Ring>
    ghost var history: seq<Sample>

    // All rings are of one size, none is empty and no two are the same object.
    ghost predicate Shape()
      reads this`timeStamps, this`counts, timeStamps, counts.Values
    {
      && 0 < samples && timeStamps.Valid() && timeStamps.capacity == samples
      && (forall k :: k in counts ==> counts[k] != timeStamps && counts[k].Valid() && counts[k].capacity == samples)
      && (forall k :: k in counts ==> counts[k].values != [])
      && (forall k, l :: k in counts && l in counts && k != l ==> counts[k] != counts[l])
    }

    // What the ring of a category holds.
    ghost function RingOf(k: string): seq<int>
      requires Shape()
      reads this`timeStamps, this`counts, timeStamps, counts.Values
    {
      if k in counts then counts[k].Contents() else []
    }

    /** The rings hold the last samples of the whole history. */
    ghost predicate Valid()
      reads this, timeStamps, counts.Values
    {
      && Shape()
      && timeStamps.Contents() == LastN(Times(history), samples)
      && forall k :: RingOf(k) == LastN(Series(history, k), samples)
    }

    constructor (samples: nat)
      ensures Valid() && history == [] && this.samples == samples + 1
    {
      this.samples := samples + 1;
      timeStamps := new Ring(samples + 1);
      counts, history := map[], [];
    }

    method NewRing(v: int) returns (ring: Ring)
      requires 0 < samples
      ensures fresh(ring) && ring.Valid() && ring.capacity == samples && ring.values != []
      ensures ring.Contents() == LastN([0] + [v], samples)
    {
      ring := new Ring(samples);
      ring.Add(0);
      assert ring.Contents() == [0];
      ring.Add(v);
      assert |ring.Contents()| == |ring.values|;
    }

    method Record(k: string, v: int)
      requires Shape()
      modifies this`counts, counts.Values
      ensures Shape() && timeStamps.Contents() == old(timeStamps.Contents())
      ensures RingOf(k) == LastN(Pushed(old(RingOf(k)), v), samples)
      ensures forall l :: l != k ==> RingOf(l) == old(RingOf(l))
      ensures forall l :: l in counts ==> counts[l] in old(counts.Values) || fresh(counts[l])
    {
      if k in counts {
        assert counts[k].Contents() != [];
        counts[k].Add(v);
        assert |counts[k].Contents()| == |counts[k].values|;
      } else {
        var ring := NewRing(v);
        counts := counts[k := ring];
      }
    }

    method RecordAll(current: map<string, int>)
      requires Shape()
      modifies this`counts, counts.Values
      ensures Shape() && timeStamps.Contents() == old(timeStamps.Contents())
      ensures forall k :: RingOf(k) == Kept(old(RingOf(k)), current, k, samples)
    {
      ghost var stamps := timeStamps.Contents();
      var todo := current.Keys;
      while todo != {}
        invariant todo <= current.Keys && Shape() && timeStamps.Contents() == stamps
        invariant forall k :: RingOf(k) == Kept(old(RingOf(k)), current - todo, k, samples)
        invariant forall l :: l in counts ==> counts[l] in old(counts.Values) || fresh(counts[l])
      {
        var k :| k in todo;
        Record(k, current[k]);
        todo := todo - {k};
      }
    }

    method Stamp(now: int)
      requires Shape()
      modifies timeStamps
      ensures Shape() && forall k :: RingOf(k) == old(RingOf(k))
      ensures timeStamps.Contents() == LastN(old(timeStamps.Contents()) + [now], samples)
    {
      timeStamps.Add(now);
    }

    method Snapshot(now: int, current: map<string, int>)
      requires Valid()
      modifies this, timeStamps, counts.Values
      ensures Valid() && history == old(history) + [Sample(now, current)]
    {
      ghost var longer := history + [Sample(now, current)];
      TimesFollow(history, Sample(now, current), samples);
      forall k ensures LastN(Series(longer, k), samples) == Kept(RingOf(k), current, k, samples) {
        SeriesFollows(history, Sample(now, current), samples, k);
      }
      Stamp(now);
      RecordAll(current);
      history := longer;
    }

    // The countdown over the time stamps for one category.
    method CountDown(m: nat, values: seq<int>) returns (r: seq<int>)
      requires 0 < m
      ensures r == Deltas(m, values)
    {
      r := seq(m - 1, _ => 0);
      var valueIndex := |values| - 1;
      for i := m - 1 downto 0
        invariant |r| == m - 1
        invariant valueIndex == |values| - m + i || (valueIndex <= 0 && |values| - m + i <= valueIndex)
        invariant valueIndex < |values|
        invariant forall j :: i <= j < m - 1 ==> r[j] == Deltas(m, values)[j]
      {
        if valueIndex <= 0 {
          r := r[i := 0];
        } else {
          r := r[i := values[valueIndex] - values[valueIndex - 1]];
          valueIndex := valueIndex - 1;
        }
      }
    }

    method GetCount() returns (r: map<string, seq<int>>)
      requires Valid()
      ensures |history| <= 1 || samples == 1 ==> r == map[]
      ensures |history| > 1 && samples > 1 ==> r.Keys == counts.Keys
      ensures forall k :: k in r ==>
        r[k] == Deltas(Retained(|history|, samples), LastN(Series(history, k), samples))
    {
      r := map[];
      var timeStampValues := timeStamps.Values();
      if |timeStampValues| <= 1 {
        return;
      }
      var todo := counts.Keys;
      while todo != {}
        invariant todo <= counts.Keys && r.Keys == counts.Keys - todo
        invariant forall k :: k in r ==> r[k] == Deltas(|timeStampValues|, RingOf(k))
      {
        var k :| k in todo;
        var values := counts[k].Values();
        var deltas := CountDown(|timeStampValues|, values);
        r := r[k := deltas];
        todo := todo - {k};
      }
    }
  }
}
