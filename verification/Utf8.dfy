/** UTF-8 decoding as the scanner and the escaper see it: one rune off the front of a byte
    string, an invalid byte counting as a rune of width 1. */
module Utf8 {
  import opened Encoding

  const REPLACEMENT: int := 0xfffd

  datatype Rune = Rune(value: nat, width: nat)

  predicate Continues(b: Byte) {
    0x80 <= b <= 0xbf
  }

  // The byte after a given lead byte must lie in this range.
  function SecondLow(b: Byte): Byte {
    if b == 0xe0 then 0xa0 else if b == 0xf0 then 0x90 else 0x80
  }

  function SecondHigh(b: Byte): Byte {
    if b == 0xed then 0x9f else if b == 0xf4 then 0x8f else 0xbf
  }

  // How many bytes a lead byte announces; 1 for anything that is no multi-byte lead.
  function LeadWidth(b: Byte): nat {
    if 0xc2 <= b <= 0xdf then 2 else if 0xe0 <= b <= 0xef then 3 else if 0xf0 <= b <= 0xf4 then 4 else 1
  }

  predicate Complete(t: Bytes)
    requires t != []
  {
    var n := LeadWidth(t[0]);
    && 1 < n <= |t|
    && SecondLow(t[0]) <= t[1] <= SecondHigh(t[0])
    && (2 < n ==> Continues(t[2]))
    && (3 < n ==> Continues(t[3]))
  }

  // Payload bits of two, three and four bytes.
  function Value2(a: int, b: int): int {
    (a - 0xc0) * 64 + (b - 0x80)
  }

  function Value3(a: int, b: int, c: int): int {
    (a - 0xe0) * 4096 + (b - 0x80) * 64 + (c - 0x80)
  }

  function Value4(a: int, b: int, c: int, d: int): int {
    (a - 0xf0) * 262144 + (b - 0x80) * 4096 + (c - 0x80) * 64 + (d - 0x80)
  }

  function Value(t: Bytes): (r: nat)
    requires t != [] && Complete(t)
    ensures 0x80 <= r <= 0x10ffff
  {
    match LeadWidth(t[0])
    case 2 => Value2(t[0], t[1])
    case 3 => Value3(t[0], t[1], t[2])
    case _ => Value4(t[0], t[1], t[2], t[3])
  }

  /** utf8.DecodeRuneInString on a non-empty string. */
  function DecodeRune(t: Bytes): (r: Rune)
    requires t != []
    ensures 1 <= r.width <= |t| && r.width <= 4
    ensures t[0] < 0x80 ==> r == Rune(t[0], 1)
    ensures 0x80 <= t[0] ==> 0x80 <= r.value
  {
    if t[0] < 0x80 then Rune(t[0], 1)
    else if Complete(t) then Rune(Value(t), LeadWidth(t[0]))
    else Rune(REPLACEMENT, 1)
  }

  /** bytes.Buffer.WriteRune on a rune above ASCII. */
  function EncodeRune(r: nat): Bytes
    requires 0x80 <= r <= 0x10ffff
  {
    if r < 0x800 then [0xc0 + r / 64, 0x80 + r % 64]
    else if r < 0x1_0000 then [0xe0 + r / 4096, 0x80 + r / 64 % 64, 0x80 + r % 64]
    else [0xf0 + r / 262144, 0x80 + r / 4096 % 64, 0x80 + r / 64 % 64, 0x80 + r % 64]
  }

  lemma Encode2(a: int, b: int)
    requires 0xc2 <= a <= 0xdf && 0x80 <= b <= 0xbf
    ensures var r := Value2(a, b); 0x80 <= r < 0x800 && 0xc0 + r / 64 == a && 0x80 + r % 64 == b
  {
  }

  lemma Encode3(a: int, b: int, c: int)
    requires 0xe0 <= a <= 0xef && (if a == 0xe0 then 0xa0 else 0x80) <= b <= 0xbf && 0x80 <= c <= 0xbf
    ensures var r := Value3(a, b, c);
      0x800 <= r < 0x1_0000 && 0xe0 + r / 4096 == a && 0x80 + r / 64 % 64 == b && 0x80 + r % 64 == c
  {
    var r := Value3(a, b, c);
    assert r / 64 == (a - 0xe0) * 64 + (b - 0x80);
  }

  lemma Encode4(a: int, b: int, c: int, d: int)
    requires 0xf0 <= a <= 0xf4 && (if a == 0xf0 then 0x90 else 0x80) <= b <= (if a == 0xf4 then 0x8f else 0xbf)
    requires 0x80 <= c <= 0xbf && 0x80 <= d <= 0xbf
    ensures var r := Value4(a, b, c, d);
      && 0x1_0000 <= r <= 0x10ffff && 0xf0 + r / 262144 == a
      && 0x80 + r / 4096 % 64 == b && 0x80 + r / 64 % 64 == c && 0x80 + r % 64 == d
  {
    var r := Value4(a, b, c, d);
    assert r / 64 == (a - 0xf0) * 4096 + (b - 0x80) * 64 + (c - 0x80);
    assert r / 4096 == (a - 0xf0) * 64 + (b - 0x80);
  }

  /** Writing a decoded rune writes the bytes it was decoded from. */
  lemma EncodeDecoded(t: Bytes)
    requires t != [] && Complete(t)
    ensures EncodeRune(Value(t)) == t[..LeadWidth(t[0])]
  {
    match LeadWidth(t[0]) {
      case 2 => Encode2(t[0], t[1]);
      case 3 => Encode3(t[0], t[1], t[2]);
      case _ => Encode4(t[0], t[1], t[2], t[3]);
    }
  }

  // The runes above ASCII: everything but the surrogates.
  predicate Scalar(r: nat) {
    0x80 <= r < 0xd800 || 0xdfff < r <= 0x10ffff
  }

  /** Decoding gives back a rune that was written, whatever follows it. */
  lemma DecodeEncoded(r: nat, u: Bytes)
    requires Scalar(r)
    ensures DecodeRune(EncodeRune(r) + u) == Rune(r, |EncodeRune(r)|) && Complete(EncodeRune(r) + u)
  {
    var t := EncodeRune(r) + u;
    if r < 0x800 {
      assert t[0] == 0xc0 + r / 64 && t[1] == 0x80 + r % 64;
    } else if r < 0x1_0000 {
      assert t[0] == 0xe0 + r / 4096 && t[1] == 0x80 + r / 64 % 64 && t[2] == 0x80 + r % 64;
      assert r / 64 / 64 == r / 4096;
    } else {
      assert t[0] == 0xf0 + r / 262144 && t[1] == 0x80 + r / 4096 % 64;
      assert t[2] == 0x80 + r / 64 % 64 && t[3] == 0x80 + r % 64;
      assert r / 64 / 64 == r / 4096 && r / 4096 / 64 == r / 262144;
    }
  }

  /** A rune is read in full exactly when the bytes begin with the encoding of one; otherwise a
      byte above ASCII counts as one replacement character. */
  lemma CompleteIff(t: Bytes)
    requires t != []
    ensures Complete(t) <==> exists r: nat :: Scalar(r) && EncodeRune(r) <= t
    ensures t[0] > 0x7f && !Complete(t) ==> DecodeRune(t) == Rune(0xfffd, 1)
  {
    if Complete(t) {
      EncodeDecoded(t);
      assert Scalar(Value(t)) && EncodeRune(Value(t)) <= t;
    }
    if r: nat :| Scalar(r) && EncodeRune(r) <= t {
      assert t == EncodeRune(r) + t[|EncodeRune(r)|..];
      DecodeEncoded(r, t[|EncodeRune(r)|..]);
    }
  }

  // A complete rune is decided by its own bytes.
  lemma CompletePrefix(t: Bytes, u: Bytes)
    requires t != [] && Complete(t) && u != []
    requires LeadWidth(t[0]) <= |u| && u[..LeadWidth(t[0])] == t[..LeadWidth(t[0])]
    ensures Complete(u) && Value(u) == Value(t)
  {
    var n := LeadWidth(t[0]);
    forall i | 0 <= i < n ensures u[i] == t[i] {
      assert u[i] == u[..n][i] && t[i] == t[..n][i];
    }
  }
}
