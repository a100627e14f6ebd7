/** Sorting a result set by several keys. */
module ResultsetSort {
  import opened Common

  datatype Cell =
    | Null
    | Text(text: seq<int>)
    | Raw(raw: seq<int>)
    | Int(i: int)
    | Uint(u: nat)
    | Float(f: real)

  // Cells the comparison can put side by side: of one kind, or missing.
  predicate Alike(a: Cell, b: Cell) {
    a.Null? || b.Null? || (a.Text? && b.Text?) || (a.Raw? && b.Raw?) ||
    (a.Int? && b.Int?) || (a.Uint? && b.Uint?) || (a.Float? && b.Float?)
  }

  type Row = seq<Cell>

  datatype SortKey = SortKey(descending: bool, column: nat)

  // ---------------------------------------------------------------------- comparisons

  function CompareBytes(a: seq<int>, b: seq<int>): int {
    if a == [] && b == [] then 0
    else if a == [] then -1
    else if b == [] then 1
    else if a[0] < b[0] then -1
    else if a[0] > b[0] then 1
    else CompareBytes(a[1..], b[1..])
  }

  function CmpValue(a: Cell, b: Cell): int
    requires Alike(a, b)
  {
    if a.Null? && b.Null? then 0
    else if a.Null? then -1
    else if b.Null? then 1
    else
      match a
      case Text(s) => CompareBytes(s, b.text)
      case Raw(s) => CompareBytes(s, b.raw)
      case Int(i) => if i < b.i then -1 else if i > b.i then 1 else 0
      case Uint(u) => if u < b.u then -1 else if u > b.u then 1 else 0
      case Float(f) => if f < b.f then -1 else if f > b.f then 1 else 0
  }

  // ------------------------------------------------------------- what the order means

  // They agree up to the k-th place, where the first ends or has the smaller byte.
  ghost predicate DiffersAt(a: seq<int>, b: seq<int>, k: nat) {
    k <= |a| && k < |b| && a[..k] == b[..k] && (k == |a| || a[k] < b[k])
  }

  /** Byte strings in lexicographic order. */
  ghost predicate LexBelow(a: seq<int>, b: seq<int>) {
    exists k :: DiffersAt(a, b, k)
  }

  /** A missing value is below every other; numbers are ordered by size, texts and raw bytes
      lexicographically. */
  ghost predicate Below(a: Cell, b: Cell) {
    || (a.Null? && !b.Null?)
    || (a.Int? && b.Int? && a.i < b.i)
    || (a.Uint? && b.Uint? && a.u < b.u)
    || (a.Float? && b.Float? && a.f < b.f)
    || (a.Text? && b.Text? && LexBelow(a.text, b.text))
    || (a.Raw? && b.Raw? && LexBelow(a.raw, b.raw))
  }

  lemma DiffersLater(a: seq<int>, b: seq<int>, k: nat)
    requires a != [] && b != [] && a[0] == b[0]
    ensures DiffersAt(a[1..], b[1..], k) <==> DiffersAt(a, b, k + 1)
  {
    if k + 1 <= |a| && k + 1 <= |b| {
      assert a[..k + 1] == [a[0]] + a[1..][..k] && b[..k + 1] == [b[0]] + b[1..][..k];
      assert a[1..][..k] == a[..k + 1][1..] && b[1..][..k] == b[..k + 1][1..];
    }
  }

  lemma DiffersAfter(a: seq<int>, b: seq<int>, k: nat)
    requires a != [] && b != []
    ensures DiffersAt(a, b, k) && k > 0 ==> a[0] == b[0]
  {
    if DiffersAt(a, b, k) && k > 0 { assert a[..k][0] == a[0] && b[..k][0] == b[0]; }
  }

  lemma LexStep(a: seq<int>, b: seq<int>)
    ensures a != [] && b != [] && a[0] == b[0] ==> (LexBelow(a, b) <==> LexBelow(a[1..], b[1..]))
    ensures a != [] && b != [] && a[0] != b[0] ==> (LexBelow(a, b) <==> a[0] < b[0])
    ensures a == [] ==> (LexBelow(a, b) <==> b != [])
    ensures b == [] ==> !LexBelow(a, b)
  {
    if a == [] && b != [] {
      assert DiffersAt(a, b, 0);
    } else if a != [] && b != [] && a[0] == b[0] {
      if k: nat :| DiffersAt(a, b, k) {
        assert k > 0;
        DiffersLater(a, b, k - 1);
      }
      if k: nat :| DiffersAt(a[1..], b[1..], k) {
        DiffersLater(a, b, k);
      }
    } else if a != [] && b != [] {
      if a[0] < b[0] { assert DiffersAt(a, b, 0); }
      if k: nat :| DiffersAt(a, b, k) {
        DiffersAfter(a, b, k);
      }
    }
  }

  lemma {:induction false} BytesMean(a: seq<int>, b: seq<int>)
    ensures CompareBytes(a, b) < 0 <==> LexBelow(a, b)
    ensures CompareBytes(a, b) > 0 <==> LexBelow(b, a)
    ensures CompareBytes(a, b) == 0 <==> a == b
  {
    LexStep(a, b);
    LexStep(b, a);
    if a != [] && b != [] {
      assert a == [a[0]] + a[1..] && b == [b[0]] + b[1..];
      BytesMean(a[1..], b[1..]);
    }
  }

  /** What the comparison of two cells of a column means. */
  lemma CmpMeans(a: Cell, b: Cell)
    requires Alike(a, b)
    ensures CmpValue(a, b) < 0 <==> Below(a, b)
    ensures CmpValue(a, b) > 0 <==> Below(b, a)
    ensures CmpValue(a, b) == 0 <==> a == b
  {
    if a.Text? && b.Text? { BytesMean(a.text, b.text); }
    if a.Raw? && b.Raw? { BytesMean(a.raw, b.raw); }
  }

  // `xy`, `yz` and `xz` are how x, y, z compare in a total preorder.
  ghost predicate Chains(xy: int, yz: int, xz: int) {
    && (xy <= 0 && yz <= 0 ==> xz <= 0 && (xy < 0 || yz < 0 ==> xz < 0))
    && (xy >= 0 && yz >= 0 ==> xz >= 0 && (xy > 0 || yz > 0 ==> xz > 0))
  }

  lemma {:induction false} BytesOrdered(a: seq<int>, b: seq<int>, c: seq<int>)
    ensures CompareBytes(a, b) == -CompareBytes(b, a)
    ensures CompareBytes(a, a) == 0 && Chains(CompareBytes(a, b), CompareBytes(b, c), CompareBytes(a, c))
  {
    if a != [] && b != [] && c != [] {
      BytesOrdered(a[1..], b[1..], c[1..]);
    } else {
      if a != [] && b != [] { BytesOrdered(a[1..], b[1..], []); }
      if a != [] { BytesOrdered(a[1..], [], []); }
    }
  }

  /** Values of one column are totally preordered. */
  lemma CmpOrdered(a: Cell, b: Cell, c: Cell)
    requires Alike(a, b) && Alike(b, c) && Alike(a, c)
    ensures CmpValue(a, b) == -CmpValue(b, a) && CmpValue(a, a) == 0
    ensures Chains(CmpValue(a, b), CmpValue(b, c), CmpValue(a, c))
  {
    if a.Text? {
      BytesOrdered(a.text, if b.Text? then b.text else [], if c.Text? then c.text else []);
    } else if a.Raw? {
      BytesOrdered(a.raw, if b.Raw? then b.raw else [], if c.Raw? then c.raw else []);
    } else if b.Text? {
      BytesOrdered(b.text, if c.Text? then c.text else [], []);
    } else if b.Raw? {
      BytesOrdered(b.raw, if c.Raw? then c.raw else [], []);
    }
  }

  predicate ComparableOn(k: SortKey, a: Row, b: Row) {
    k.column < |a| && k.column < |b| && Alike(a[k.column], b[k.column])
  }

  // Rows that have every key column, with comparable values there.
  ghost predicate Comparable(keys: seq<SortKey>, a: Row, b: Row) {
    forall i :: 0 <= i < |keys| ==> ComparableOn(keys[i], a, b)
  }

  function CmpKey(k: SortKey, a: Row, b: Row): int
    requires ComparableOn(k, a, b)
  {
    var v := CmpValue(a[k.column], b[k.column]);
    if k.descending then -v else v
  }

  // The first key on which the rows differ decides.
  ghost function CmpRows(keys: seq<SortKey>, a: Row, b: Row): int
    requires Comparable(keys, a, b)
  {
    if keys == [] then 0
    else
      assert Comparable(keys[..1], a, b);
      var v := CmpKey(keys[0], a, b);
      if v != 0 then v else CmpRows(keys[1..], a, b)
  }

  lemma {:induction false} RowsOrdered(keys: seq<SortKey>, a: Row, b: Row, c: Row)
    requires Comparable(keys, a, b) && Comparable(keys, b, c) && Comparable(keys, a, c)
    ensures Comparable(keys, b, a) && Comparable(keys, a, a)
    ensures CmpRows(keys, a, b) == -CmpRows(keys, b, a) && CmpRows(keys, a, a) == 0
    ensures Chains(CmpRows(keys, a, b), CmpRows(keys, b, c), CmpRows(keys, a, c))
  {
    if keys != [] {
      var at := keys[0].column;
      CmpOrdered(a[at], b[at], c[at]);
      RowsOrdered(keys[1..], a, b, c);
    }
  }

  ghost predicate RowLess(keys: seq<SortKey>, a: Row, b: Row)
    requires Comparable(keys, a, b)
  {
    CmpRows(keys, a, b) < 0
  }

  /** The order given to the sort is a strict weak order: never a row before itself, never
      both ways, transitive, and ties are transitive too. */
  lemma StrictWeakOrder(keys: seq<SortKey>, a: Row, b: Row, c: Row)
    requires Comparable(keys, a, b) && Comparable(keys, b, c) && Comparable(keys, a, c)
    ensures Comparable(keys, a, a) && Comparable(keys, b, a) && Comparable(keys, c, b) && Comparable(keys, c, a)
    ensures !RowLess(keys, a, a) && !(RowLess(keys, a, b) && RowLess(keys, b, a))
    ensures RowLess(keys, a, b) && RowLess(keys, b, c) ==> RowLess(keys, a, c)
    ensures (!RowLess(keys, a, b) && !RowLess(keys, b, a) && !RowLess(keys, b, c) && !RowLess(keys, c, b)) ==>
            (!RowLess(keys, a, c) && !RowLess(keys, c, a))
  {
    RowsOrdered(keys, a, b, c);
    assert Comparable(keys, c, b) && Comparable(keys, b, b) && Comparable(keys, c, c) && Comparable(keys, c, a);
    RowsOrdered(keys, b, c, c);
    RowsOrdered(keys, a, c, c);
  }

  // -------------------------------------------------------------- rows of any shape

  // The rows have the same value in the key's column.
  predicate TiesOn(k: SortKey, a: Row, b: Row) {
    k.column < |a| && k.column < |b| && a[k.column] == b[k.column]
  }

  // The key puts `a` first: the smaller value, or the greater if the key is descending.
  ghost predicate Precedes(k: SortKey, a: Row, b: Row) {
    && k.column < |a| && k.column < |b|
    && if k.descending then Below(b[k.column], a[k.column]) else Below(a[k.column], b[k.column])
  }

  lemma KeyMeans(k: SortKey, a: Row, b: Row)
    requires ComparableOn(k, a, b)
    ensures CmpKey(k, a, b) < 0 <==> Precedes(k, a, b)
    ensures CmpKey(k, a, b) > 0 <==> Precedes(k, b, a)
    ensures CmpKey(k, a, b) == 0 <==> TiesOn(k, a, b)
  {
    CmpMeans(a[k.column], b[k.column]);
  }

  // The rows tie on the keys before the n-th.
  ghost predicate TiedTo(keys: seq<SortKey>, n: nat, a: Row, b: Row)
    requires n <= |keys|
  {
    forall m :: 0 <= m < n ==> TiesOn(keys[m], a, b)
  }

  // A key that cannot be compared is reached.
  ghost predicate Panics(keys: seq<SortKey>, a: Row, b: Row) {
    exists n :: 0 <= n < |keys| && TiedTo(keys, n, a, b) && !ComparableOn(keys[n], a, b)
  }

  // The first key on which they differ puts `a` first.
  ghost predicate Before(keys: seq<SortKey>, a: Row, b: Row) {
    exists n :: 0 <= n < |keys| && TiedTo(keys, n, a, b) && Precedes(keys[n], a, b)
  }

  /** On rows that can be compared on every key nothing panics, and the first key on which
      they differ decides. */
  lemma {:induction false} ComparableRows(keys: seq<SortKey>, a: Row, b: Row)
    requires Comparable(keys, a, b)
    ensures !Panics(keys, a, b) && (Before(keys, a, b) <==> RowLess(keys, a, b))
  {
    forall n | 0 <= n < |keys| ensures ComparableOn(keys[n], a, b) {}
    if keys != [] {
      var rest := keys[1..];
      ComparableRows(rest, a, b);
      KeyMeans(keys[0], a, b);
      if Precedes(keys[0], a, b) {
        assert TiedTo(keys, 0, a, b);
      } else if TiesOn(keys[0], a, b) {
        if n :| 0 <= n < |rest| && TiedTo(rest, n, a, b) && Precedes(rest[n], a, b) {
          forall m | 0 <= m < n + 1 ensures TiesOn(keys[m], a, b) {
            if m > 0 { assert TiesOn(rest[m - 1], a, b); }
          }
          assert TiedTo(keys, n + 1, a, b);
        }
        if n :| 0 <= n < |keys| && TiedTo(keys, n, a, b) && Precedes(keys[n], a, b) {
          BelowIsStrict(keys[0], a, b);
          forall m | 0 <= m < n - 1 ensures TiesOn(rest[m], a, b) { assert TiesOn(keys[m + 1], a, b); }
          assert TiedTo(rest, n - 1, a, b);
        }
      }
    }
  }

  lemma BelowIsStrict(k: SortKey, a: Row, b: Row)
    ensures TiesOn(k, a, b) ==> !Precedes(k, a, b)
  {
    if TiesOn(k, a, b) { CmpMeans(a[k.column], a[k.column]); }
  }

  /** One key on a column of integers sorts by size, upwards or downwards. */
  lemma IntegerKey(descending: bool, column: nat, a: Row, b: Row)
    requires column < |a| && column < |b| && a[column].Int? && b[column].Int?
    ensures !Panics([SortKey(descending, column)], a, b)
    ensures Before([SortKey(descending, column)], a, b) <==>
            if descending then a[column].i > b[column].i else a[column].i < b[column].i
  {
    var keys := [SortKey(descending, column)];
    assert TiedTo(keys, 0, a, b);
  }

  // The n-th key decides if the rows differ there, and panics if it cannot compare them.
  lemma Decided(keys: seq<SortKey>, n: nat, a: Row, b: Row)
    requires n < |keys| && TiedTo(keys, n, a, b) && ComparableOn(keys[n], a, b)
    ensures Precedes(keys[n], a, b) || Precedes(keys[n], b, a) ==> !Panics(keys, a, b)
    ensures Precedes(keys[n], a, b) ==> Before(keys, a, b)
    ensures Precedes(keys[n], b, a) ==> !Before(keys, a, b)
    ensures TiesOn(keys[n], a, b) ==> TiedTo(keys, n + 1, a, b)
  {
    KeyMeans(keys[n], a, b);
    forall m | 0 <= m < n ensures TiesOn(keys[m], a, b) && !Precedes(keys[m], a, b) && ComparableOn(keys[m], a, b) {
      BelowIsStrict(keys[m], a, b);
    }
  }

  lemma Undecided(keys: seq<SortKey>, n: nat, a: Row, b: Row)
    requires n < |keys| && TiedTo(keys, n, a, b) && !ComparableOn(keys[n], a, b)
    ensures Panics(keys, a, b)
  {
  }

  lemma Tied(keys: seq<SortKey>, a: Row, b: Row)
    requires TiedTo(keys, |keys|, a, b)
    ensures !Panics(keys, a, b) && !Before(keys, a, b)
  {
    forall m | 0 <= m < |keys| ensures ComparableOn(keys[m], a, b) && !Precedes(keys[m], a, b) {
      assert TiesOn(keys[m], a, b);
      BelowIsStrict(keys[m], a, b);
    }
  }

  // --------------------------------------------------------------------- the sorter

  class Sorter<D> {
    var keys: seq<SortKey>
    var values: seq<Row>
    var rowDatas: seq<D>

    /** None is the panic on two kinds of value in one column, or on a missing column. */
    method Less(i: nat, j: nat) returns (less: Option<bool>)
      requires i < |values| && j < |values|
      ensures less.None? <==> Panics(keys, values[i], values[j])
      ensures less.Some? ==> (less.value <==> Before(keys, values[i], values[j]))
    {
      var v1, v2 := values[i], values[j];
      for n := 0 to |keys|
        invariant TiedTo(keys, n, v1, v2)
      {
        var k := keys[n];
        if k.column >= |v1| || k.column >= |v2| || !Alike(v1[k.column], v2[k.column]) {
          Undecided(keys, n, v1, v2);
          return None;
        }
        var v := CmpValue(v1[k.column], v2[k.column]);
        if k.descending {
          v := -v;
        }
        KeyMeans(k, v1, v2);
        Decided(keys, n, v1, v2);
        if v < 0 {
          return Some(true);
        } else if v > 0 {
          return Some(false);
        }
      }
      Tied(keys, v1, v2);
      return Some(false);
    }

    // Each row with its raw data, once the data are there.
    ghost function Pairs(): seq<(Row, D)>
      requires |values| == |rowDatas|
      reads this
    {
      seq(|values|, i requires 0 <= i < |values| && |values| == |rowDatas| reads this => (values[i], rowDatas[i]))
    }

    /** A swap moves rows and their raw data together; after the data are cleared only the
        rows move. Either way nothing is lost. */
    method Swap(i: nat, j: nat)
      requires i < |values| && j < |values| && (rowDatas == [] || |rowDatas| == |values|)
      modifies this`values, this`rowDatas
      ensures values == old(values)[i := old(values)[j]][j := old(values)[i]]
      ensures multiset(values) == multiset(old(values))
      ensures old(rowDatas) == [] ==> rowDatas == []
      ensures old(rowDatas) != [] ==> |rowDatas| == |values|
      ensures old(rowDatas) != [] ==> Pairs() == old(Pairs())[i := old(Pairs())[j]][j := old(Pairs())[i]]
      ensures old(rowDatas) != [] ==> multiset(Pairs()) == multiset(old(Pairs()))
    {
      values := values[i := values[j]][j := values[i]];
      if |rowDatas| != 0 {
        ghost var before := old(Pairs());
        rowDatas := rowDatas[i := rowDatas[j]][j := rowDatas[i]];
        assert Pairs() == before[i := before[j]][j := before[i]];
      }
    }
  }
}
