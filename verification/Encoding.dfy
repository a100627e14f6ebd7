/** Fixed-width and length-encoded integers and strings of the MySQL wire protocol. */
module Encoding {
  import opened Common

  type Byte = b: int | 0 <= b < 256

  type Bytes = seq<Byte>

  const MAX_UINT64: int := 0x1_0000_0000_0000_0000

  type Uint64 = n: int | 0 <= n < MAX_UINT64

  function Power256(n: nat): (p: int)
    ensures 0 < p
  {
    if n == 0 then 1 else 256 * Power256(n - 1)
  }

  /** The low `n` bytes of `i`, least significant first; byte(i >> 8k) is the k-th of them. */
  function LittleEndian(i: nat, n: nat): (s: Bytes)
    ensures |s| == n
  {
    if n == 0 then [] else [i % 256] + LittleEndian(i / 256, n - 1)
  }

  function FromLittleEndian(s: Bytes): (i: nat)
    ensures i < Power256(|s|)
  {
    if s == [] then 0 else s[0] + 256 * FromLittleEndian(s[1..])
  }

  /** Reading fixed-width bytes back gives the integer, cut to that width. */
  lemma {:induction false} LittleEndianRoundTrip(i: nat, n: nat)
    ensures FromLittleEndian(LittleEndian(i, n)) == i % Power256(n)
  {
    if n > 0 {
      var s := LittleEndian(i, n);
      assert s[1..] == LittleEndian(i / 256, n - 1);
      LittleEndianRoundTrip(i / 256, n - 1);
      ModSplit(i, Power256(n - 1));
    }
  }

  lemma ModSplit(i: nat, p: int)
    requires 0 < p
    ensures i % (256 * p) == i % 256 + 256 * (i / 256 % p)
  {
    var q, r := i / 256 / p, i / 256 % p;
    assert i / 256 == q * p + r;
    assert i == (256 * p) * q + (i % 256 + 256 * r);
    assert i % 256 + 256 * r < 256 * p by {
      assert r <= p - 1;
    }
    ModUnique(i, 256 * p, q, i % 256 + 256 * r);
  }

  /** The other way round: any bytes are the encoding of the integer they spell. */
  lemma {:induction false} FromLittleEndianRoundTrip(s: Bytes)
    ensures LittleEndian(FromLittleEndian(s), |s|) == s
  {
    if s != [] {
      var rest := FromLittleEndian(s[1..]);
      ModUnique(s[0] + 256 * rest, 256, rest, s[0]);
      assert (s[0] + 256 * rest) / 256 == rest;
      FromLittleEndianRoundTrip(s[1..]);
      assert s == [s[0]] + s[1..];
    }
  }

  lemma Powers()
    ensures Power256(1) == 0x100 && Power256(2) == 0x1_0000 && Power256(3) == 0x100_0000 && Power256(4) == 0x1_0000_0000
    ensures Power256(8) == MAX_UINT64
  {
    assert Power256(4) == 0x1_0000_0000;
    assert Power256(5) == 256 * Power256(4);
    assert Power256(6) == 256 * Power256(5);
    assert Power256(7) == 256 * Power256(6);
  }

  // ------------------------------------------------------ length-encoded integers

  function LenEncIntSize(i: Uint64): nat {
    if i < 251 then 1 else if i < 0x1_0000 then 3 else if i < 0x100_0000 then 4 else 9
  }

  /** AppendLenEncInt's bytes, and what WriteLenEncInt stores. */
  function LenEncInt(i: Uint64): (s: Bytes)
    ensures |s| == LenEncIntSize(i)
  {
    if i <= 250 then [i] else [Marker(i)] + LittleEndian(i, LenEncIntSize(i) - 1)
  }

  // The first byte of an integer that does not fit one byte.
  function Marker(i: Uint64): Byte {
    if i <= 0xffff then 0xfc else if i <= 0xff_ffff then 0xfd else 0xfe
  }

  lemma UnrollTwo(i: nat, n: nat)
    ensures LittleEndian(i, 2 + n) == [i % 256, i / 256 % 256] + LittleEndian(i / 256 / 256, n)
  {
    assert LittleEndian(i, 2 + n) == [i % 256] + LittleEndian(i / 256, 1 + n);
    assert LittleEndian(i / 256, 1 + n) == [i / 256 % 256] + LittleEndian(i / 256 / 256, n);
  }

  lemma UnrollFour(i: nat, n: nat)
    ensures LittleEndian(i, 4 + n)
      == [i % 256, i / 256 % 256, i / 256 / 256 % 256, i / 256 / 256 / 256 % 256]
         + LittleEndian(i / 256 / 256 / 256 / 256, n)
  {
    UnrollTwo(i, 2 + n);
    UnrollTwo(i / 256 / 256, n);
  }

  lemma SplitEight(i: nat)
    ensures LittleEndian(i, 8) == LittleEndian(i, 4) + LittleEndian(i / 256 / 256 / 256 / 256, 4)
  {
    UnrollFour(i, 4);
    UnrollFour(i, 0);
  }

  // WriteUint16 and the three- and four-byte stores: low bytes first.
  method WriteTwo(data: array<Byte>, pos: nat, i: nat)
    requires pos + 2 <= data.Length
    modifies data
    ensures data[..] == old(data[..pos]) + LittleEndian(i, 2) + old(data[pos + 2..])
  {
    data[pos], data[pos + 1] := i % 256, i / 256 % 256;
  }

  method WriteThree(data: array<Byte>, pos: nat, i: nat)
    requires pos + 3 <= data.Length
    modifies data
    ensures data[..] == old(data[..pos]) + LittleEndian(i, 3) + old(data[pos + 3..])
  {
    data[pos], data[pos + 1], data[pos + 2] := i % 256, i / 256 % 256, i / 256 / 256 % 256;
    assert LittleEndian(i / 256, 2) == [i / 256 % 256, i / 256 / 256 % 256];
  }

  method WriteFour(data: array<Byte>, pos: nat, i: nat)
    requires pos + 4 <= data.Length
    modifies data
    ensures data[..] == old(data[..pos]) + LittleEndian(i, 4) + old(data[pos + 4..])
  {
    data[pos], data[pos + 1], data[pos + 2], data[pos + 3] :=
      i % 256, i / 256 % 256, i / 256 / 256 % 256, i / 256 / 256 / 256 % 256;
    UnrollFour(i, 0);
  }

  method WriteEight(data: array<Byte>, pos: nat, i: nat)
    requires pos + 8 <= data.Length
    modifies data
    ensures data[..] == old(data[..pos]) + LittleEndian(i, 8) + old(data[pos + 8..])
  {
    ghost var high := i / 256 / 256 / 256 / 256;
    ghost var before, after := data[..pos], data[pos + 8..];
    ghost var low4, high4 := LittleEndian(i, 4), LittleEndian(high, 4);
    SplitEight(i);
    WriteFour(data, pos, i);
    assert data[..pos + 4] == before + low4 && data[pos + 8..] == after;
    WriteFour(data, pos + 4, i / 256 / 256 / 256 / 256);
    assert data[..] == before + (low4 + high4) + after;
  }

  /** WriteLenEncInt: fills the slice in place and returns the next position. */
  method WriteLenEncInt(data: array<Byte>, pos: nat, i: Uint64) returns (next: nat)
    requires pos + LenEncIntSize(i) <= data.Length
    modifies data
    ensures next == pos + LenEncIntSize(i)
    ensures data[..] == old(data[..pos]) + LenEncInt(i) + old(data[next..])
  {
    next := pos + LenEncIntSize(i);
    ghost var before, after := data[..pos], data[next..];
    if i < 251 {
      data[pos] := i;
    } else if i < 0x1_0000 {
      data[pos] := 0xfc;
      WriteTwo(data, pos + 1, i);
    } else if i < 0x100_0000 {
      data[pos] := 0xfd;
      WriteThree(data, pos + 1, i);
    } else {
      data[pos] := 0xfe;
      WriteEight(data, pos + 1, i);
    }
    assert data[..] == before + LenEncInt(i) + after;
  }

  // A decoded length: where it ends, and whether it was the NULL marker.
  datatype LenEnc = LenEnc(value: Uint64, next: nat, isNull: bool)

  function ReadLenEncInt(data: Bytes, pos: nat): Option<LenEnc> {
    if pos >= |data| then None
    else if data[pos] == 0xfb then Some(LenEnc(0, pos + 1, true))
    else if data[pos] == 0xfc then ReadTail(data, pos, 2)
    else if data[pos] == 0xfd then ReadTail(data, pos, 3)
    else if data[pos] == 0xfe then ReadTail(data, pos, 8)
    else Some(LenEnc(data[pos], pos + 1, false))
  }

  lemma TailFits(n: nat)
    requires n <= 8
    ensures Power256(n) <= MAX_UINT64
  {
    Powers();
    PowerGrows(n, 8);
  }

  function ReadTail(data: Bytes, pos: nat, n: nat): Option<LenEnc>
    requires pos < |data| && n <= 8
  {
    if pos + n >= |data| then None
    else
      TailFits(n);
      Some(LenEnc(FromLittleEndian(data[pos + 1..pos + 1 + n]), pos + 1 + n, false))
  }

  lemma {:induction false} PowerGrows(n: nat, m: nat)
    requires n <= m
    ensures Power256(n) <= Power256(m)
  {
    if n < m { PowerGrows(n, m - 1); }
  }

  lemma TailRoundTrip(data: Bytes, pos: nat, n: nat, i: Uint64)
    requires pos + n < |data| && n <= 8 && i < Power256(n) && data[pos + 1..pos + 1 + n] == LittleEndian(i, n)
    ensures ReadTail(data, pos, n) == Some(LenEnc(i, pos + 1 + n, false))
  {
    LittleEndianRoundTrip(i, n);
    ModUnique(i, Power256(n), 0, i);
  }

  /** A length-encoded integer is read back exactly, wherever it stands in a packet. */
  lemma LenEncRoundTrip(i: Uint64, before: Bytes, after: Bytes)
    ensures ReadLenEncInt(before + LenEncInt(i) + after, |before|)
      == Some(LenEnc(i, |before| + LenEncIntSize(i), false))
  {
    var data, enc := before + LenEncInt(i) + after, LenEncInt(i);
    assert data[|before|] == enc[0];
    if 250 < i {
      var n := |enc| - 1;
      assert data[|before| + 1..|before| + 1 + n] == enc[1..];
      assert enc[1..] == LittleEndian(i, n);
      Powers();
      TailRoundTrip(data, |before|, n, i);
    }
  }

  /** The first byte decides how many bytes follow; 0xfb alone stands for NULL. */
  lemma FirstByteDecides(data: Bytes, pos: nat)
    requires pos < |data|
    ensures var r, b := ReadLenEncInt(data, pos), data[pos];
      && (b <= 0xfa || b == 0xff ==> r == Some(LenEnc(b, pos + 1, false)))
      && (b == 0xfb ==> r == Some(LenEnc(0, pos + 1, true)))
      && (b == 0xfc ==> (r.Some? <==> pos + 3 <= |data|))
      && (b == 0xfd ==> (r.Some? <==> pos + 4 <= |data|))
      && (b == 0xfe ==> (r.Some? <==> pos + 9 <= |data|))
      && (b in {0xfc, 0xfd, 0xfe} && r.Some? ==> !r.value.isNull)
      && (b == 0xfc && r.Some? ==> r.value.next == pos + 3)
      && (b == 0xfc && r.Some? ==> r.value.value == data[pos + 1] as int + 256 * data[pos + 2] as int)
      && (b == 0xfd && r.Some? ==> r.value.next == pos + 4) && (b == 0xfe && r.Some? ==> r.value.next == pos + 9)
  {
    if data[pos] == 0xfc && pos + 3 <= |data| { TwoBytes(data[pos + 1..pos + 3]); }
  }

  lemma TwoBytes(s: Bytes)
    requires |s| == 2
    ensures FromLittleEndian(s) == s[0] as int + 256 * s[1] as int
  {
    assert s[1..][1..] == [];
  }

  /** No length starts with the NULL marker or the error header, and one that starts
      like an end-of-file packet announces at least 16 megabytes. */
  lemma LenEncFirstByte(i: Uint64)
    ensures LenEncInt(i)[0] != 0xfb && LenEncInt(i)[0] != 0xff
    ensures LenEncInt(i)[0] == 0xfe <==> 0x100_0000 <= i
  {
  }

  // ------------------------------------------------------- length-encoded strings

  // Strings are shorter than 2^63 bytes, as any Go slice is.
  type Text = s: Bytes | |s| < 0x8000_0000_0000_0000 witness []

  function LenEncString(b: Text): Bytes {
    LenEncInt(|b|) + b
  }

  // What reading bytes gives: a value, an error, or a panic in the original.
  datatype Parsed<T> = Got(value: T) | Malformed | Panics

  const MAX_INT64: int := 0x8000_0000_0000_0000

  datatype LenEncText = LenEncText(value: Text, next: nat, isNull: bool)

  /** The length is turned into a signed integer: from 2^63 on the end of the string wraps
      around to below its start, which passes the length test and panics. */
  function ReadLenEncStringAsBytes(data: Bytes, pos: nat): Parsed<LenEncText> {
    match ReadLenEncInt(data, pos)
    case None => Malformed
    case Some(l) =>
      var end := l.next + l.value;
      if end <= |data| && l.value < MAX_INT64 then Got(LenEncText(data[l.next..end], end, l.isNull))
      else if end > MAX_INT64 then Panics
      else Malformed
  }

  lemma LenEncStringRoundTrip(b: Text, before: Bytes, after: Bytes)
    ensures ReadLenEncStringAsBytes(before + LenEncString(b) + after, |before|)
      == Got(LenEncText(b, |before| + |LenEncString(b)|, false))
  {
    var data := before + LenEncString(b) + after;
    assert data == before + LenEncInt(|b|) + (b + after);
    LenEncRoundTrip(|b|, before, b + after);
    var start := |before| + LenEncIntSize(|b|);
    assert data[start..start + |b|] == b;
  }

  /** A string read at any place is NULL if and only if the byte there is 0xfb, and then the
      next one is read right after it. */
  lemma NullStringIff(data: Bytes, pos: nat)
    ensures var r := ReadLenEncStringAsBytes(data, pos);
      && (r.Got? && r.value.isNull <==> pos < |data| && data[pos] == 0xfb)
      && (r.Got? && r.value.isNull ==> r.value.value == [] && r.value.next == pos + 1)
  {
    if pos < |data| { FirstByteDecides(data, pos); }
  }

  /** In a packet of at most 2^62 bytes, reading a string panics exactly on an eight-byte
      length whose end passes 2^63. */
  lemma StringPanicsIff(data: Bytes, pos: nat)
    requires |data| <= MAX_INT64 / 2
    ensures ReadLenEncStringAsBytes(data, pos).Panics? <==>
            pos + 8 < |data| && data[pos] == 0xfe && pos + 9 + FromLittleEndian(data[pos + 1..pos + 9]) > MAX_INT64
  {
    if pos < |data| && (data[pos] == 0xfc || data[pos] == 0xfd) {
      var n := if data[pos] == 0xfc then 2 else 3;
      if pos + n < |data| { ShortLength(data[pos + 1..pos + 1 + n]); }
    }
  }

  lemma ShortLength(s: Bytes)
    requires |s| <= 3
    ensures FromLittleEndian(s) < 0x100_0000
  {
    Powers();
    PowerGrows(|s|, 3);
  }

  /** Nine bytes are enough. */
  lemma HugeLengthPanics()
    ensures ReadLenEncStringAsBytes([0xfe, 0, 0, 0, 0, 0, 0, 0, 0x80], 0).Panics?
  {
    var data: Bytes := [0xfe, 0, 0, 0, 0, 0, 0, 0, 0x80];
    HighestBit(data[1..9]);
    StringPanicsIff(data, 0);
  }

  lemma HighestBit(e: Bytes)
    requires e == [0, 0, 0, 0, 0, 0, 0, 0x80]
    ensures FromLittleEndian(e) == MAX_INT64
  {
    var b: Bytes := [0, 0, 0, 0x80];
    assert FromLittleEndian(b) == 0x8000_0000;
    assert e[4..] == b;
    assert FromLittleEndian(e[3..]) == 256 * 0x8000_0000 by { assert e[3..][1..] == e[4..]; }
    assert FromLittleEndian(e[2..]) == 256 * FromLittleEndian(e[3..]) by { assert e[2..][1..] == e[3..]; }
    assert FromLittleEndian(e[1..]) == 256 * FromLittleEndian(e[2..]) by { assert e[1..][1..] == e[2..]; }
  }
}
