/** Binary-protocol result rows: header, NULL bitmap, column values. */
module BinaryRow {
  import opened Common
  import opened Encoding

  // A binary row starts like an OK packet.
  const OK_HEADER: Byte := 0x00

  // Column types by the way both sides treat them.  Text stands for the string, blob,
  // bit and decimal types; the writer knows Json, the reader does not; only NULLs fit
  // a NullColumn.
  datatype ColumnType = Tiny | Short | Year | Int24 | Long | Longlong | Text | Json | NullColumn

  datatype Field = Field(kind: ColumnType, unsigned: bool)

  type Int64 = n: int | -0x8000_0000_0000_0000 <= n < 0x8000_0000_0000_0000

  datatype Value = Null | Int(i: Int64) | Uint(u: Uint64) | Blob(b: Encoding.Text)

  function Width(kind: ColumnType): nat {
    match kind
    case Tiny => 1
    case Short | Year => 2
    case Int24 | Long => 4
    case Longlong => 8
    case _ => 0
  }

  predicate IsInteger(kind: ColumnType) {
    Width(kind) > 0
  }

  // -------------------------------------------------------------------- one column

  function TwosComplement(i: Int64): Uint64 {
    if i < 0 then i + MAX_UINT64 else i
  }

  // The value's bytes before the column type cuts or frames them.
  function Raw(v: Value): Encoding.Text
    requires !v.Null?
  {
    match v
    case Int(i) => LittleEndian(TwosComplement(i), 8)
    case Uint(u) => LittleEndian(u, 8)
    case Blob(b) => b
  }

  /** AppendBinaryValue: None where the original reports an unsupported type or panics on
      a value shorter than its column. */
  function AppendBinaryValue(kind: ColumnType, v: Value): Option<Bytes> {
    if v.Null? then None
    else match kind
      case Text | Json => Some(LenEncString(Raw(v)))
      case NullColumn => None
      case _ => if |Raw(v)| < Width(kind) then None else Some(Raw(v)[..Width(kind)])
  }

  function SignExtend(u: nat, width: nat): int
    requires u < Power256(width)
  {
    if 2 * u < Power256(width) then u else u - Power256(width)
  }

  // What the reader makes of a column's bytes.  A signed TINY is not sign-extended.
  function ColumnValue(f: Field, raw: Bytes): Value
    requires IsInteger(f.kind) && |raw| == Width(f.kind)
  {
    var u := FromLittleEndian(raw);
    assert Power256(|raw|) <= MAX_UINT64 by { Powers(); PowerGrows(|raw|, 8); }
    if f.unsigned then Uint(u)
    else if f.kind == Tiny then
      assert Power256(1) == 256;
      Int(u)
    else Int(SignExtend(u, Width(f.kind)))
  }

  // A packet's capacity is its length, so a column cut short panics.
  function ParseColumn(p: Bytes, pos: nat, f: Field): Parsed<(Value, nat)> {
    if IsInteger(f.kind) then
      if pos + Width(f.kind) > |p| then Panics
      else Got((ColumnValue(f, p[pos..pos + Width(f.kind)]), pos + Width(f.kind)))
    else if f.kind == NullColumn then Got((Null, pos))
    else if f.kind == Json then Malformed
    else match ReadLenEncStringAsBytes(p, pos)
      case Malformed => Malformed
      case Panics => Panics
      case Got(t) => Got((if t.isNull then Null else Blob(t.value), t.next))
  }

  // Which values a column can be given: none of type NULL, and an integer column no bytes but
  // enough of them.
  predicate Appendable(kind: ColumnType, v: Value) {
    !v.Null? && kind != NullColumn && (v.Blob? ==> |v.b| >= Width(kind))
  }

  lemma AppendsIff(kind: ColumnType, v: Value)
    ensures AppendBinaryValue(kind, v).Some? <==> Appendable(kind, v)
    ensures v.Blob? && (kind == Text || kind == Json) ==> AppendBinaryValue(kind, v) == Some(LenEncString(v.b))
  {
    assert Width(kind) <= 8;
  }

  /** A JSON value is written like a text, and no reader takes it back. */
  lemma JsonIsRefused(b: Encoding.Text, p: Bytes, pos: nat, unsigned: bool)
    ensures AppendBinaryValue(Json, Blob(b)) == Some(LenEncString(b))
    ensures ParseColumn(p, pos, Field(Json, unsigned)) == Malformed
  {
  }

  /** The values a column type carries without loss. */
  predicate Fits(f: Field, v: Value) {
    if v.Null? then true
    else if !IsInteger(f.kind) then f.kind == Text && v.Blob?
    else if f.unsigned then v.Uint? && v.u < Power256(Width(f.kind))
    else if f.kind == Tiny then v.Int? && 0 <= v.i < 256
    else v.Int? && -Power256(Width(f.kind)) <= 2 * v.i < Power256(Width(f.kind))
  }

  lemma {:induction false} PrefixIsLow(i: nat, n: nat, m: nat)
    requires n <= m
    ensures LittleEndian(i, m)[..n] == LittleEndian(i, n)
  {
    if n > 0 {
      var s := LittleEndian(i, m);
      PrefixIsLow(i / 256, n - 1, m - 1);
      assert s[..n] == [s[0]] + s[1..][..n - 1];
      assert s[1..] == LittleEndian(i / 256, m - 1);
    }
  }

  lemma ModShift(i: int, p: int, q: int)
    requires 0 < p
    ensures (i + p * q) % p == i % p
  {
    var d, r := i / p, i % p;
    assert i == p * d + r;
    assert p * (d + q) == p * d + p * q;
    ModUnique(i + p * q, p, d + q, r);
  }

  // Wrapping to 64 bits first does not change the low bytes.
  lemma WrapAgain(i: Int64, w: nat)
    requires 0 < w <= 8
    ensures TwosComplement(i) % Power256(w) == i % Power256(w)
  {
    PowerProduct(w, 8 - w);
    Powers();
    if i < 0 { ModShift(i, Power256(w), Power256(8 - w)); }
  }

  lemma {:induction false} PowerProduct(a: nat, b: nat)
    ensures Power256(a + b) == Power256(a) * Power256(b)
  {
    if a > 0 {
      PowerProduct(a - 1, b);
      assert 256 * (Power256(a - 1) * Power256(b)) == (256 * Power256(a - 1)) * Power256(b);
    }
  }

  lemma WrapIsIdentity(i: int, p: int)
    requires 0 < p
    ensures (if 2 * (i % p) < p then i % p else i % p - p) == i <==> -p <= 2 * i < p
    ensures i % p == i <==> 0 <= i < p
  {
    if 0 <= i < p {
      ModUnique(i, p, 0, i);
    } else if -p <= i < 0 {
      ModUnique(i, p, -1, i + p);
    }
  }

  // Reading back an integer column gives the value exactly when it fits.
  lemma IntegerColumn(f: Field, v: Value)
    requires IsInteger(f.kind) && !v.Null? && AppendBinaryValue(f.kind, v).Some?
    ensures ColumnValue(f, AppendBinaryValue(f.kind, v).value) == v <==> Fits(f, v)
  {
    var w, raw := Width(f.kind), AppendBinaryValue(f.kind, v).value;
    match v {
      case Blob(_) =>
      case Uint(u) =>
        PrefixIsLow(u, w, 8);
        LittleEndianRoundTrip(u, w);
        WrapIsIdentity(u, Power256(w));
      case Int(i) =>
        PrefixIsLow(TwosComplement(i), w, 8);
        LittleEndianRoundTrip(TwosComplement(i), w);
        WrapAgain(i, w);
        WrapIsIdentity(i, Power256(w));
        assert f.kind == Tiny ==> Power256(w) == 256;
    }
  }

  /** How many bytes each integer column takes, low bytes first, in two's complement. */
  lemma IntegerBytes(i: Int64)
    ensures AppendBinaryValue(Tiny, Int(i)) == Some(LittleEndian(i % MAX_UINT64, 1))
    ensures AppendBinaryValue(Short, Int(i)) == Some(LittleEndian(i % MAX_UINT64, 2))
    ensures AppendBinaryValue(Year, Int(i)) == Some(LittleEndian(i % MAX_UINT64, 2))
    ensures AppendBinaryValue(Int24, Int(i)) == Some(LittleEndian(i % MAX_UINT64, 4))
    ensures AppendBinaryValue(Long, Int(i)) == Some(LittleEndian(i % MAX_UINT64, 4))
    ensures AppendBinaryValue(Longlong, Int(i)) == Some(LittleEndian(i % MAX_UINT64, 8))
  {
    if i < 0 { ModUnique(i, MAX_UINT64, -1, i + MAX_UINT64); } else { ModUnique(i, MAX_UINT64, 0, i); }
    PrefixIsLow(TwosComplement(i), 1, 8);
    PrefixIsLow(TwosComplement(i), 2, 8);
    PrefixIsLow(TwosComplement(i), 4, 8);
    PrefixIsLow(TwosComplement(i), 8, 8);
  }

  /** A string column is NULL also where the NULL marker stands in place of its length. */
  lemma NullMarkerIsNull(p: Bytes, pos: nat, unsigned: bool)
    requires pos < |p| && p[pos] == 0xfb
    ensures ParseColumn(p, pos, Field(Text, unsigned)) == Got((Null, pos + 1))
  {
    NullStringIff(p, pos);
  }

  lemma ColumnRoundTrip(f: Field, v: Value, before: Bytes, after: Bytes)
    requires !v.Null? && AppendBinaryValue(f.kind, v).Some?
    ensures var enc := AppendBinaryValue(f.kind, v).value;
      var r := ParseColumn(before + enc + after, |before|, f);
      && (r.Got? ==> r.value.1 == |before| + |enc|)
      && (r.Got? && r.value.0 == v <==> Fits(f, v))
  {
    var enc := AppendBinaryValue(f.kind, v).value;
    var p := before + enc + after;
    if IsInteger(f.kind) {
      assert p[|before|..|before| + |enc|] == enc;
      IntegerColumn(f, v);
    } else if f.kind == Text {
      LenEncStringRoundTrip(Raw(v), before, after);
    }
  }

  // --------------------------------------------------------------------- the bitmap

  // b & (1 << t) > 0 and b | 1 << t on a byte.
  predicate Bit(b: nat, t: nat) {
    if t == 0 then b % 2 == 1 else Bit(b / 2, t - 1)
  }

  function SetBit(b: nat, t: nat): nat {
    if t == 0 then b / 2 * 2 + 1 else 2 * SetBit(b / 2, t - 1) + b % 2
  }

  lemma {:induction false} SetBitSets(b: nat, t: nat, s: nat)
    ensures Bit(SetBit(b, t), s) <==> s == t || Bit(b, s)
  {
    if t > 0 && s > 0 { SetBitSets(b / 2, t - 1, s - 1); }
  }

  lemma {:induction false} SetBitBound(b: nat, t: nat, n: nat)
    requires t < n && b < Two(n)
    ensures SetBit(b, t) < Two(n)
  {
    var half := Two(n - 1);
    assert Two(n) == 2 * half && b / 2 < half;
    if t > 0 { SetBitBound(b / 2, t - 1, n - 1); }
  }

  function Two(n: nat): nat {
    if n == 0 then 1 else 2 * Two(n - 1)
  }

  lemma {:induction false} ZeroHasNoBits(t: nat)
    ensures !Bit(0, t)
  {
    if t > 0 { ZeroHasNoBits(t - 1); }
  }

  // A byte is determined by its bits.
  lemma {:induction false} BitsDecide(a: nat, b: nat, n: nat)
    requires a < Two(n) && b < Two(n) && forall t: nat :: t < n ==> (Bit(a, t) <==> Bit(b, t))
    ensures a == b
  {
    if n > 0 {
      assert Two(n) == 2 * Two(n - 1);
      forall t: nat | t < n - 1 ensures Bit(a / 2, t) <==> Bit(b / 2, t) {
        assert Bit(a, t + 1) <==> Bit(b, t + 1);
      }
      BitsDecide(a / 2, b / 2, n - 1);
      assert Bit(a, 0) <==> Bit(b, 0);
    }
  }

  lemma NoBit(b: Byte)
    requires forall t :: 0 <= t < 8 ==> !Bit(b, t)
    ensures b == 0
  {
    forall t: nat ensures !Bit(0, t) { ZeroHasNoBits(t); }
    assert Two(8) == 256;
    BitsDecide(b, 0, 8);
  }

  lemma OneBit(b: Byte, k: nat)
    requires k < 8 && forall t :: 0 <= t < 8 ==> (Bit(b, t) <==> t == k)
    ensures b == SetBit(0, k) && SetBit(0, 0) == 1 && SetBit(0, 2) == 4
  {
    forall t: nat ensures Bit(SetBit(0, k), t) <==> t == k {
      SetBitSets(0, k, t);
      ZeroHasNoBits(t);
    }
    assert Two(8) == 256;
    SetBitBound(0, k, 8);
    BitsDecide(b, SetBit(0, k), 8);
    assert SetBit(0, 1) == 2;
  }

  function BitmapLen(n: nat): nat {
    (n + 7 + 2) / 8
  }

  // As few bytes as hold two bits more than there are columns.
  lemma BitmapIsTight(n: nat)
    ensures 8 * (BitmapLen(n) - 1) < n + 2 <= 8 * BitmapLen(n)
  {
  }

  /** Bit i + 2 of the map is set exactly when one of the first `upto` columns is NULL and is
      column i; no other bit is. */
  ghost predicate IsBitmap(bitmap: Bytes, row: seq<Value>, upto: nat)
    requires upto <= |row|
  {
    && |bitmap| == BitmapLen(|row|)
    && forall k, t :: 0 <= k < |bitmap| && 0 <= t < 8 ==>
      (Bit(bitmap[k], t) <==> 2 <= 8 * k + t < upto + 2 && row[8 * k + t - 2].Null?)
  }

  lemma EmptyBitmap(bitmap: Bytes, row: seq<Value>)
    requires |bitmap| == BitmapLen(|row|) && forall k :: 0 <= k < |bitmap| ==> bitmap[k] == 0
    ensures IsBitmap(bitmap, row, 0)
  {
    forall t: nat { ZeroHasNoBits(t); }
  }

  // nullBitMap[(j+2)/8] |= 1 << ((j+2)%8)
  function Marked(bitmap: Bytes, j: nat): Bytes
    requires (j + 2) / 8 < |bitmap|
  {
    var k, t := (j + 2) / 8, (j + 2) % 8;
    assert SetBit(bitmap[k], t) < 256 by { assert Two(8) == 256; SetBitBound(bitmap[k], t, 8); }
    bitmap[k := SetBit(bitmap[k], t)]
  }

  lemma MarkedIsBitmap(bitmap: Bytes, row: seq<Value>, j: nat)
    requires j < |row| && IsBitmap(bitmap, row, j)
    ensures IsBitmap(if row[j].Null? then Marked(bitmap, j) else bitmap, row, j + 1)
  {
    if row[j].Null? {
      forall k, t | 0 <= k < |bitmap| && 0 <= t < 8
        ensures Bit(Marked(bitmap, j)[k], t) <==> 2 <= 8 * k + t < j + 3 && row[8 * k + t - 2].Null?
      {
        if k == (j + 2) / 8 { SetBitSets(bitmap[k], (j + 2) % 8, t); }
      }
    }
  }

  // -------------------------------------------------------------------- whole rows

  function Joined<T>(done: seq<T>, rest: Option<seq<T>>): Option<seq<T>> {
    if rest.Some? then Some(done + rest.value) else None
  }

  lemma JoinedTwice<T>(a: seq<T>, b: seq<T>, rest: Option<seq<T>>)
    ensures Joined(a, Joined(b, rest)) == Joined(a + b, rest)
    ensures Joined([], rest) == rest
  {
    if rest.Some? {
      assert a + (b + rest.value) == a + b + rest.value;
      assert [] + rest.value == rest.value;
    }
  }

  type Writer = (ColumnType, Value) -> Option<Bytes>

  // The bytes of the columns from i on, by any writer of values.
  function ColumnsOf(write: Writer, fields: seq<Field>, row: seq<Value>, i: nat): Option<Bytes>
    requires |fields| == |row| && i <= |row|
    decreases |row| - i
  {
    if i == |row| then Some([])
    else if row[i].Null? then ColumnsOf(write, fields, row, i + 1)
    else match write(fields[i].kind, row[i])
      case None => None
      case Some(enc) => Joined(enc, ColumnsOf(write, fields, row, i + 1))
  }

  function Columns(fields: seq<Field>, row: seq<Value>, i: nat): Option<Bytes>
    requires |fields| == |row| && i <= |row|
  {
    ColumnsOf(AppendBinaryValue, fields, row, i)
  }

  /** A row is built if and only if each of its values but the NULLs can be given to its column;
      one whose values all fit is. */
  lemma {:induction false} BuildsIff(fields: seq<Field>, row: seq<Value>, i: nat)
    requires |fields| == |row| && i <= |row|
    ensures Columns(fields, row, i).Some? <==>
            forall j :: i <= j < |row| ==> row[j].Null? || Appendable(fields[j].kind, row[j])
    ensures FitsFrom(fields, row, i) ==> Columns(fields, row, i).Some?
    decreases |row| - i
  {
    if i < |row| {
      AppendsIff(fields[i].kind, row[i]);
      BuildsIff(fields, row, i + 1);
      assert Columns(fields, row, i).Some? <==>
        (row[i].Null? || Appendable(fields[i].kind, row[i])) && Columns(fields, row, i + 1).Some?;
    }
  }

  // The header byte and the exact NULL bitmap.
  ghost predicate IsRow(p: Bytes, row: seq<Value>) {
    1 + BitmapLen(|row|) <= |p| && p[0] == OK_HEADER && IsBitmap(p[1..1 + BitmapLen(|row|)], row, |row|)
  }

  /** `p` is the binary-protocol encoding of `row`. */
  ghost predicate IsBinaryRow(p: Bytes, fields: seq<Field>, row: seq<Value>)
    requires |fields| == |row|
  {
    IsRow(p, row) && Columns(fields, row, 0) == Some(p[1 + BitmapLen(|row|)..])
  }

  /** The first column's NULL bit is the third of the bitmap, the seventh's the first of the next
      byte. */
  lemma NullRowBytes(p: Bytes, fields: seq<Field>, row: seq<Value>)
    requires |fields| == |row| && IsBinaryRow(p, fields, row)
    ensures |row| == 1 ==> |p| >= 2 && p[0] == 0 && p[1] == if row[0].Null? then 4 else 0
    ensures |row| == 7 && row[6].Null? && (forall i :: 0 <= i < 6 ==> !row[i].Null?) ==>
      |p| >= 3 && p[1] == 0 && p[2] == 1
  {
    if |row| == 1 {
      if row[0].Null? { OneBit(p[1], 2); } else { NoBit(p[1]); }
    } else if |row| == 7 && row[6].Null? && forall i :: 0 <= i < 6 ==> !row[i].Null? {
      NoBit(p[1]);
      OneBit(p[2], 0);
    }
  }

  method BuildBinaryRow(fields: seq<Field>, row: seq<Value>) returns (r: Option<Bytes>)
    ensures r.Some? <==> |row| == |fields| && Columns(fields, row, 0).Some?
    ensures r.Some? ==> IsBinaryRow(r.value, fields, row)
  {
    r := BuildRow(AppendBinaryValue, fields, row);
  }

  // The loop over the columns, whatever appends a value.
  method BuildRow(write: Writer, fields: seq<Field>, row: seq<Value>) returns (r: Option<Bytes>)
    ensures r.Some? <==> |row| == |fields| && ColumnsOf(write, fields, row, 0).Some?
    ensures r.Some? ==> IsRow(r.value, row) && ColumnsOf(write, fields, row, 0) == Some(r.value[1 + BitmapLen(|row|)..])
  {
    if |row| != |fields| {
      return None;
    }
    var bitmapLen := BitmapLen(|fields|);
    var nullBitmap: Bytes := seq(bitmapLen, _ => 0);
    EmptyBitmap(nullBitmap, row);
    var p: Bytes := [OK_HEADER] + nullBitmap;
    ghost var start, columns: Bytes := p, [];
    ghost var goal := ColumnsOf(write, fields, row, 0);
    JoinedTwice([], [], goal);
    for j := 0 to |row|
      invariant IsBitmap(nullBitmap, row, j)
      invariant p == start + columns
      invariant goal == Joined(columns, ColumnsOf(write, fields, row, j))
    {
      MarkedIsBitmap(nullBitmap, row, j);
      if row[j].Null? {
        nullBitmap := Marked(nullBitmap, j);
        continue;
      }
      var enc := write(fields[j].kind, row[j]);
      if enc.None? {
        return None;
      }
      JoinedTwice(columns, enc.value, ColumnsOf(write, fields, row, j + 1));
      p := p + enc.value;
      columns := columns + enc.value;
    }
    assert goal == Some(columns) by { assert columns + [] == columns; }
    assert p[1 + bitmapLen..] == columns;
    p := p[..1] + nullBitmap + p[1 + bitmapLen..];
    assert p[1..1 + bitmapLen] == nullBitmap && p[1 + bitmapLen..] == columns;
    r := Some(p);
  }

  // nullBitmap[(i+2)/8] & (1 << ((i+2)%8)) > 0, the bitmap starting at byte 1.
  predicate NullBit(p: Bytes, i: nat)
    requires 1 + (i + 2) / 8 < |p|
  {
    Bit(p[1 + (i + 2) / 8], (i + 2) % 8)
  }

  function Then<T>(done: seq<T>, rest: Parsed<seq<T>>): Parsed<seq<T>> {
    if rest.Got? then Got(done + rest.value) else rest
  }

  lemma ThenTwice<T>(a: seq<T>, b: seq<T>, rest: Parsed<seq<T>>)
    ensures Then(a, Then(b, rest)) == Then(a + b, rest)
    ensures Then([], rest) == rest
  {
    if rest.Got? {
      assert a + (b + rest.value) == a + b + rest.value;
      assert [] + rest.value == rest.value;
    }
  }

  type Reader = (Bytes, nat, Field) -> Parsed<(Value, nat)>

  // Column values from column i on, reading at `pos`, by any reader of values.
  function ColumnsBy(read: Reader, p: Bytes, fields: seq<Field>, i: nat, pos: nat): Parsed<seq<Value>>
    requires i <= |fields| && 1 + BitmapLen(|fields|) <= |p|
    decreases |fields| - i
  {
    if i == |fields| then Got([])
    else if NullBit(p, i) then Then([Null], ColumnsBy(read, p, fields, i + 1, pos))
    else match read(p, pos, fields[i])
      case Malformed => Malformed
      case Panics => Panics
      case Got((v, next)) => Then([v], ColumnsBy(read, p, fields, i + 1, next))
  }

  function ParsedRow(p: Bytes, fields: seq<Field>): Parsed<seq<Value>> {
    if p == [] then Panics
    else if p[0] != OK_HEADER then Malformed
    else if 1 + BitmapLen(|fields|) > |p| then Panics
    else ColumnsBy(ParseColumn, p, fields, 0, 1 + BitmapLen(|fields|))
  }

  // No row is read from a packet with another header.
  lemma HeaderIsChecked(p: Bytes, fields: seq<Field>)
    requires p != [] && p[0] != 0
    ensures ParsedRow(p, fields) == Malformed
  {
  }

  method ParseBinary(p: Bytes, fields: seq<Field>) returns (r: Parsed<seq<Value>>)
    ensures r == ParsedRow(p, fields)
  {
    if p == [] {
      return Panics;
    }
    if p[0] != OK_HEADER {
      return Malformed;
    }
    var pos: nat := 1 + BitmapLen(|fields|);
    if pos > |p| {
      return Panics;
    }
    var data: seq<Value> := [];
    ghost var goal := ParsedRow(p, fields);
    ThenTwice([], [], goal);
    for i := 0 to |fields|
      invariant |data| == i
      invariant goal == Then(data, ColumnsBy(ParseColumn, p, fields, i, pos))
    {
      if NullBit(p, i) {
        ThenTwice(data, [Null], ColumnsBy(ParseColumn, p, fields, i + 1, pos));
        data := data + [Null];
        continue;
      }
      var v := ParseColumn(p, pos, fields[i]);
      match v {
        case Malformed => return Malformed;
        case Panics => return Panics;
        case Got((value, next)) =>
          ThenTwice(data, [value], ColumnsBy(ParseColumn, p, fields, i + 1, next));
          data := data + [value];
          pos := next;
      }
    }
    assert data + [] == data;
    r := Got(data);
  }

  ghost predicate NullsMarked(p: Bytes, row: seq<Value>)
    requires 1 + BitmapLen(|row|) <= |p|
  {
    forall i :: 0 <= i < |row| ==> (NullBit(p, i) <==> row[i].Null?)
  }

  ghost predicate FitsFrom(fields: seq<Field>, row: seq<Value>, i: nat)
    requires |fields| == |row|
  {
    AllFit(Fits, fields, row, i)
  }

  type Fitting = (Field, Value) -> bool

  ghost predicate AllFit(fits: Fitting, fields: seq<Field>, row: seq<Value>, i: nat)
    requires |fields| == |row|
  {
    forall j :: i <= j < |row| ==> row[j].Null? || fits(fields[j], row[j])
  }

  lemma CutOut<T>(p: seq<T>, pos: nat, enc: seq<T>, rest: seq<T>)
    requires pos <= |p| && p[pos..] == enc + rest
    ensures p == p[..pos] + enc + rest && p[pos + |enc|..] == rest
  {
    assert p == p[..pos] + p[pos..];
    assert p[pos + |enc|..] == p[pos..][|enc|..];
  }

  // `read` ends where `write` ended, and gives the value back exactly when it fits.
  ghost predicate Inverts(read: Reader, write: Writer, fits: Fitting, p: Bytes) {
    forall pos: nat, f, v, after :: InvertsAt(read, write, fits, p, pos, f, v, after)
  }

  ghost predicate InvertsAt(
    read: Reader, write: Writer, fits: Fitting, p: Bytes, pos: nat, f: Field, v: Value, after: Bytes)
  {
    var enc, r := write(f.kind, v), read(p, pos, f);
    (!v.Null? && enc.Some? && pos <= |p| && p[pos..] == enc.value + after) ==>
      (r.Got? ==> r.value.1 == pos + |enc.value|) && (r.Got? && r.value.0 == v <==> fits(f, v))
  }

  lemma AllFitStep(fits: Fitting, fields: seq<Field>, row: seq<Value>, i: nat)
    requires |fields| == |row| && i < |row|
    ensures AllFit(fits, fields, row, i) <==>
            (row[i].Null? || fits(fields[i], row[i])) && AllFit(fits, fields, row, i + 1)
  {
  }

  /** Columns written one after another are read one after another, by any such pair. */
  lemma {:induction false} ColumnsRoundTrip(
    read: Reader, write: Writer, fits: Fitting, p: Bytes, fields: seq<Field>, row: seq<Value>, i: nat, pos: nat)
    requires |fields| == |row| && i <= |row| && 1 + BitmapLen(|row|) <= |p| && NullsMarked(p, row)
    requires Inverts(read, write, fits, p) && pos <= |p| && ColumnsOf(write, fields, row, i) == Some(p[pos..])
    ensures ColumnsBy(read, p, fields, i, pos) == Got(row[i..]) <==> AllFit(fits, fields, row, i)
    decreases |row| - i
  {
    if i == |row| {
      assert row[i..] == [];
    } else {
      assert NullBit(p, i) <==> row[i].Null?;
      assert row[i..][1..] == row[i + 1..];
      AllFitStep(fits, fields, row, i);
      if row[i].Null? {
        ColumnsRoundTrip(read, write, fits, p, fields, row, i + 1, pos);
        HeadAndTail(Null, row[i..], ColumnsBy(read, p, fields, i + 1, pos));
      } else {
        var enc := write(fields[i].kind, row[i]).value;
        var rest := ColumnsOf(write, fields, row, i + 1).value;
        CutOut(p, pos, enc, rest);
        assert InvertsAt(read, write, fits, p, pos, fields[i], row[i], rest);
        ColumnsRoundTrip(read, write, fits, p, fields, row, i + 1, pos + |enc|);
        var v := read(p, pos, fields[i]);
        if v.Got? { HeadAndTail(v.value.0, row[i..], ColumnsBy(read, p, fields, i + 1, pos + |enc|)); }
      }
    }
  }

  lemma HeadAndTail(v: Value, row: seq<Value>, rest: Parsed<seq<Value>>)
    requires row != []
    ensures Then([v], rest) == Got(row) <==> v == row[0] && rest == Got(row[1..])
  {
    if rest.Got? { assert ([v] + rest.value)[1..] == rest.value; }
    assert row == [row[0]] + row[1..];
  }

  lemma BinaryInverts(p: Bytes)
    ensures Inverts(ParseColumn, AppendBinaryValue, Fits, p)
  {
    forall pos: nat, f, v, after ensures InvertsAt(ParseColumn, AppendBinaryValue, Fits, p, pos, f, v, after) {
      ColumnIsRead(p, pos, f, v, after);
    }
  }

  lemma ColumnIsRead(p: Bytes, pos: nat, f: Field, v: Value, after: Bytes)
    ensures InvertsAt(ParseColumn, AppendBinaryValue, Fits, p, pos, f, v, after)
  {
    var enc := AppendBinaryValue(f.kind, v);
    if !v.Null? && enc.Some? && pos <= |p| && p[pos..] == enc.value + after {
      CutOut(p, pos, enc.value, after);
      ColumnRoundTrip(f, v, p[..pos], after);
    }
  }

  lemma RowIsMarked(p: Bytes, row: seq<Value>)
    requires 1 + BitmapLen(|row|) <= |p| && IsBitmap(p[1..1 + BitmapLen(|row|)], row, |row|)
    ensures NullsMarked(p, row)
  {
    var n := 1 + BitmapLen(|row|);
    forall i | 0 <= i < |row| ensures NullBit(p, i) <==> row[i].Null? {
      var k, t := (i + 2) / 8, (i + 2) % 8;
      assert 8 * k + t - 2 == i && p[1..n][k] == p[1 + k];
      assert Bit(p[1..n][k], t) <==> row[8 * k + t - 2].Null?;
    }
  }

  /** Round trip, for every column count and NULL pattern: the row read back is the row
      built, exactly when every value fits its column. */
  lemma RowRoundTrip(p: Bytes, fields: seq<Field>, row: seq<Value>)
    requires |fields| == |row| && IsBinaryRow(p, fields, row)
    ensures ParsedRow(p, fields) == Got(row) <==> FitsFrom(fields, row, 0)
  {
    RowIsMarked(p, row);
    BinaryInverts(p);
    ColumnsRoundTrip(ParseColumn, AppendBinaryValue, Fits, p, fields, row, 0, 1 + BitmapLen(|row|));
    assert row[0..] == row;
  }

  /** A negative TINY does not survive: it comes back as its unsigned byte. */
  lemma NegativeTinyIsLost()
    ensures var f := Field(Tiny, false);
      var enc := AppendBinaryValue(Tiny, Int(-1));
      enc == Some([255]) && ParseColumn([255], 0, f) == Got((Int(255), 1))
  {
    PrefixIsLow(TwosComplement(-1), 1, 8);
    assert LittleEndian(TwosComplement(-1), 1) == [255];
    assert [255][0..1] == [255] && FromLittleEndian([255]) == 255;
  }
}
