/** The SQL escaper, and what the string scanner reads back. */
module Escape {
  import opened Common
  import opened Encoding
  import opened Utf8
  import opened Lexer

  /** encodeRef: the letter that follows the backslash. */
  function EncodeRef(b: Byte): Option<Byte> {
    match b
    case 0 => Some(48)
    case 39 => Some(39)
    case 34 => Some(34)
    case 8 => Some(98)
    case 10 => Some(110)
    case 13 => Some(114)
    case 9 => Some(116)
    case 26 => Some(90)
    case 92 => Some(92)
    case _ => None
  }

  // encodeMap[byte(runeValue)]: a rune is looked up by its low byte alone.
  function Lookup(t: Bytes): Option<Byte>
    requires t != []
  {
    EncodeRef(DecodeRune(t).value % 256)
  }

  function Escaped(t: Bytes): Bytes {
    if t == [] then []
    else EscapedRune(t) + Escaped(t[DecodeRune(t).width..])
  }

  function EscapedRune(t: Bytes): (e: Bytes)
    requires t != []
    ensures e != []
  {
    if Lookup(t).Some? then [BACKSLASH, Lookup(t).value] else t[..DecodeRune(t).width]
  }

  /** Of the ASCII bytes NUL, both quotes, backspace, newline, carriage return, tab, Control-Z and
      the backslash are escaped, by these letters; the others are copied. */
  lemma EscapedMeans(c: Byte, t: Bytes)
    requires c < 0x80
    ensures var e := Escaped([c] + t);
      && (c == 0 ==> e == [92, 48] + Escaped(t)) && (c == 8 ==> e == [92, 98] + Escaped(t))
      && (c == 9 ==> e == [92, 116] + Escaped(t)) && (c == 10 ==> e == [92, 110] + Escaped(t))
      && (c == 13 ==> e == [92, 114] + Escaped(t)) && (c == 26 ==> e == [92, 90] + Escaped(t))
      && (c == 34 || c == 39 || c == 92 ==> e == [92, c] + Escaped(t))
      && (c !in {0, 8, 9, 10, 13, 26, 34, 39, 92} ==> e == [c] + Escaped(t))
  {
    var x := [c] + t;
    assert DecodeRune(x) == Rune(c, 1) && x[1..] == t && x[..1] == [c];
  }

  /** Escaped text holds no control character that the escaper knows. */
  lemma {:induction false} NoControlLeft(t: Bytes, i: nat)
    requires i < |Escaped(t)|
    ensures Escaped(t)[i] !in {0, 8, 9, 10, 13, 26}
    decreases |t|
  {
    var w, e := DecodeRune(t).width, EscapedRune(t);
    if i >= |e| { NoControlLeft(t[w..], i - |e|); } else { NoControlInRune(t, i); }
  }

  lemma NoControlInRune(t: Bytes, i: nat)
    requires t != [] && i < |EscapedRune(t)|
    ensures EscapedRune(t)[i] !in {0, 8, 9, 10, 13, 26}
  {
    if Lookup(t).None? && DecodeRune(t).width > 1 { assert Complete(t); }
  }

  lemma EscapedFrom(goal: Bytes, dest: Bytes, sql: Bytes, i: nat, piece: Bytes, w: nat)
    requires i < |sql| && goal == dest + Escaped(sql[i..])
    requires piece == EscapedRune(sql[i..]) && w == DecodeRune(sql[i..]).width
    ensures i + w <= |sql| && goal == dest + piece + Escaped(sql[i + w..])
  {
    assert sql[i..][w..] == sql[i + w..];
    Regroup(dest, piece, Escaped(sql[i + w..]));
  }

  lemma CopiedOrEscaped(sql: Bytes, i: nat, w: nat)
    requires i < |sql| && w == DecodeRune(sql[i..]).width
    ensures i + w <= |sql|
    ensures EscapedRune(sql[i..]) ==
            if Lookup(sql[i..]).None? then sql[i..i + w] else [BACKSLASH, Lookup(sql[i..]).value]
  {
    assert sql[i..][..w] == sql[i..i + w];
  }

  // What is escaped so far and what is left to escape make up the goal.
  ghost predicate OnCourse(goal: Bytes, dest: Bytes, sql: Bytes, i: nat) {
    i <= |sql| && goal == dest + Escaped(sql[i..])
  }

  lemma OneTurn(goal: Bytes, dest: Bytes, sql: Bytes, i: nat, w: nat, c: Option<Byte>, piece: Bytes)
    requires i < |sql| && OnCourse(goal, dest, sql, i)
    requires w == DecodeRune(sql[i..]).width && c == Lookup(sql[i..])
    requires piece == if c.None? then sql[i..i + w] else [BACKSLASH, c.value]
    ensures i < i + w && OnCourse(goal, dest + piece, sql, i + w)
  {
    CopiedOrEscaped(sql, i, w);
    EscapedFrom(goal, dest, sql, i, piece, w);
  }

  method Escape(sql: Bytes) returns (dest: Bytes)
    ensures dest == Escaped(sql)
  {
    dest := [];
    var i := 0;
    ghost var goal := Escaped(sql);
    while i < |sql|
      invariant 0 <= i && OnCourse(goal, dest, sql, i)
    {
      dest, i := EscapeRune(sql, i, dest, goal);
    }
    assert dest + [] == dest;
  }

  // One turn of the loop.
  method EscapeRune(sql: Bytes, i: nat, dest: Bytes, ghost goal: Bytes) returns (dest': Bytes, i': nat)
    requires i < |sql| && OnCourse(goal, dest, sql, i)
    ensures i < i' && OnCourse(goal, dest', sql, i')
  {
    var w := DecodeRune(sql[i..]).width;
    var c := Lookup(sql[i..]);
    var piece := if c.None? then sql[i..i + w] else [BACKSLASH, c.value];
    OneTurn(goal, dest, sql, i, w, c, piece);
    return dest + piece, i + w;
  }

  // --------------------------------------------------------------- reading it back

  /** What the escaped text decodes to: an escaped rune comes back as its low byte. */
  function ReadBack(t: Bytes): Bytes {
    if t == [] then []
    else ReadRune(t) + ReadBack(t[DecodeRune(t).width..])
  }

  function ReadRune(t: Bytes): Bytes
    requires t != []
  {
    if Lookup(t).Some? then [DecodeRune(t).value % 256] else t[..DecodeRune(t).width]
  }

  /** No multi-byte rune shares its low byte with a character that must be escaped. */
  predicate Faithful(t: Bytes) {
    t == [] || ((DecodeRune(t).width > 1 ==> Lookup(t).None?) && Faithful(t[DecodeRune(t).width..]))
  }

  lemma OneByteLookup(t: Bytes)
    requires t != [] && DecodeRune(t).width == 1 && Lookup(t).Some?
    ensures t[0] < 0x80 && DecodeRune(t).value == t[0]
  {
  }

  // A rune is read back as itself unless it is a multi-byte rune that was looked up.
  lemma ReadRuneIff(t: Bytes)
    requires t != []
    ensures var w := DecodeRune(t).width;
      if w > 1 && Lookup(t).Some? then ReadRune(t)[0] != t[0] else ReadRune(t) == t[..w]
  {
    if DecodeRune(t).width == 1 && Lookup(t).Some? { OneByteLookup(t); }
  }

  lemma {:induction false} ReadBackIff(t: Bytes)
    ensures ReadBack(t) == t <==> Faithful(t)
  {
    if t != [] {
      var w := DecodeRune(t).width;
      var head, tail, back := t[..w], t[w..], ReadBack(t[w..]);
      ReadBackIff(tail);
      ReadRuneIff(t);
      HeadThenTail(t, w, ReadRune(t), back);
    }
  }

  lemma HeadThenTail(t: Bytes, w: nat, head: Bytes, back: Bytes)
    requires 0 < w <= |t| && head != [] && (head == t[..w] || head[0] != t[0])
    ensures head + back == t <==> head == t[..w] && back == t[w..]
  {
    assert t == t[..w] + t[w..];
    if head == t[..w] {
      SamePrefix(head, back, t[w..]);
    } else {
      assert (head + back)[0] == head[0];
    }
  }

  lemma SamePrefix<T>(a: seq<T>, b: seq<T>, c: seq<T>)
    ensures a + b == a + c <==> b == c
  {
    assert (a + b)[|a|..] == b && (a + c)[|a|..] == c;
  }

  // A continuation byte at the front of escaped text stood at the front of the text itself.
  lemma ContinuationStays(t: Bytes, u: Bytes)
    requires u != [] && u[0] < 0x80 && Continues((Escaped(t) + u)[0])
    ensures t != [] && t[0] == (Escaped(t) + u)[0] && (Escaped(t) + u)[1..] == Escaped(t[1..]) + u
  {
    assert t != [];
    assert Lookup(t).None? && DecodeRune(t).width == 1;
    assert EscapedRune(t) == [t[0]];
    assert [t[0]] + Escaped(t[1..]) + u == [t[0]] + (Escaped(t[1..]) + u);
  }

  // Escaping what follows an invalid byte does not complete it to a rune.
  lemma StaysInvalid(t: Bytes, u: Bytes)
    requires t != [] && 0x80 <= t[0] && u != [] && u[0] < 0x80
    ensures Complete([t[0]] + (Escaped(t[1..]) + u)) ==> Complete(t)
  {
    var v := Escaped(t[1..]) + u;
    var x := [t[0]] + v;
    if Complete(x) {
      var n := LeadWidth(t[0]);
      assert x[1] == v[0];
      ContinuationStays(t[1..], u);
      if n > 2 {
        assert x[2] == v[1] == v[1..][0] && t[1..][1..] == t[2..];
        ContinuationStays(t[2..], u);
        if n > 3 {
          assert x[3] == v[2] == v[1..][1..][0] && t[2..][1..] == t[3..];
          ContinuationStays(t[3..], u);
        }
      }
      assert Complete(t);
    }
  }

  // A rune copied by the escaper is delimited as before.
  lemma SameWidth(t: Bytes, u: Bytes)
    requires t != [] && Lookup(t).None? && u != [] && u[0] < 0x80
    ensures DecodeRune(t[..DecodeRune(t).width] + (Escaped(t[DecodeRune(t).width..]) + u)).width == DecodeRune(t).width
  {
    var w := DecodeRune(t).width;
    var x := t[..w] + (Escaped(t[w..]) + u);
    assert x[0] == t[0];
    if 0x80 <= t[0] {
      if Complete(t) {
        assert x[..w] == t[..w];
        CompletePrefix(t, x);
      } else {
        StaysInvalid(t, u);
      }
    }
  }

  lemma CopiedPiece(t: Bytes, u: Bytes, quote: Byte, noBackslash: bool)
    requires t != [] && Lookup(t).None? && u != [] && u[0] < 0x80 && IsQuote(quote)
    ensures var w := DecodeRune(t).width;
      PieceOf(t[..w] + (Escaped(t[w..]) + u), quote, noBackslash) == Chunk(t[..w], w)
  {
    var w := DecodeRune(t).width;
    SameWidth(t, u);
    assert (t[..w] + (Escaped(t[w..]) + u))[..w] == t[..w];
  }

  lemma LookedUpPiece(b: Byte, tail: Bytes, quote: Byte)
    requires EncodeRef(b).Some? && IsQuote(quote)
    ensures PieceOf([BACKSLASH, EncodeRef(b).value] + tail, quote, false) == Chunk([b], 2)
  {
    var x := [BACKSLASH, EncodeRef(b).value] + tail;
    assert x[1..][0] == EncodeRef(b).value;
    assert DecodeRune(x[1..]).width == 1;
  }

  // The first piece of an escaped text is its first rune, read back.
  lemma FirstPiece(t: Bytes, u: Bytes, quote: Byte)
    requires t != [] && u != [] && u[0] < 0x80 && IsQuote(quote)
    ensures PieceOf(Escaped(t) + u, quote, false) == Chunk(ReadRune(t), |EscapedRune(t)|)
    ensures (Escaped(t) + u)[|EscapedRune(t)|..] == Escaped(t[DecodeRune(t).width..]) + u
  {
    var w, e := DecodeRune(t).width, EscapedRune(t);
    var rest := Escaped(t[w..]);
    Regroup(e, rest, u);
    assert (e + (rest + u))[|e|..] == rest + u;
    if Lookup(t).None? {
      CopiedPiece(t, u, quote, false);
    } else {
      LookedUpPiece(DecodeRune(t).value % 256, rest + u, quote);
    }
  }

  /** Scanning past an escaped text yields its read-back, whatever ASCII follows. */
  lemma {:induction false} DecodesToReadBack(t: Bytes, u: Bytes, quote: Byte)
    requires u != [] && u[0] < 0x80 && IsQuote(quote)
    ensures Decoded(Escaped(t) + u, quote, false) == Push(ReadBack(t), Decoded(u, quote, false))
    decreases |t|
  {
    if t == [] {
      assert Escaped(t) + u == u;
      PushTwice([], [], Decoded(u, quote, false));
    } else {
      FirstPiece(t, u, quote);
      var rest := t[DecodeRune(t).width..];
      DecodesToReadBack(rest, u, quote);
      PushTwice(ReadRune(t), ReadBack(rest), Decoded(u, quote, false));
    }
  }

  lemma {:induction false} RestIsShorter(t: Bytes, quote: Byte, noBackslash: bool)
    ensures Decoded(t, quote, noBackslash).Some? ==> |Decoded(t, quote, noBackslash).value.rest| < |t|
    decreases |t|
  {
    if t != [] {
      var p := PieceOf(t, quote, noBackslash);
      if p.Chunk? { RestIsShorter(t[p.size..], quote, noBackslash); }
    }
  }

  lemma ReadBackRoundTrip(t: Bytes, quote: Byte, rest: Bytes)
    requires IsQuote(quote)
    ensures Decoded(Escaped(t) + ([quote] + rest), quote, false) == Some(Token(t, rest))
      <==> Faithful(t) && (rest == [] || rest[0] != quote)
  {
    var u := [quote] + rest;
    DecodesToReadBack(t, u, quote);
    ReadBackIff(t);
    assert u[1..] == rest;
    if rest != [] && rest[0] == quote {
      assert u[2..] == rest[1..];
      RestIsShorter(rest[1..], quote, false);
    } else {
      assert ReadBack(t) + [] == ReadBack(t);
    }
  }

  // ------------------------------------------------------- with backslash escapes off

  /** The escaper leaves the text alone. */
  predicate Untouched(t: Bytes) {
    t == [] || (Lookup(t).None? && Untouched(t[DecodeRune(t).width..]))
  }

  function Raw(t: Bytes, quote: Byte, rest: Bytes): Option<Token> {
    Decoded(Escaped(t) + ([quote] + rest), quote, true)
  }

  // A copied rune is read as itself ...
  lemma RawCopied(t: Bytes, quote: Byte, rest: Bytes)
    requires t != [] && Lookup(t).None? && IsQuote(quote)
    ensures Raw(t, quote, rest) == Push(t[..DecodeRune(t).width], Raw(t[DecodeRune(t).width..], quote, rest))
  {
    var w, u := DecodeRune(t).width, [quote] + rest;
    CopiedPiece(t, u, quote, true);
    Regroup(t[..w], Escaped(t[w..]), u);
    assert (t[..w] + (Escaped(t[w..]) + u))[w..] == Escaped(t[w..]) + u;
  }

  lemma BackslashAsItself(y: Bytes, quote: Byte)
    requires IsQuote(quote)
    ensures Decoded([BACKSLASH] + y, quote, true) == Push([BACKSLASH], Decoded(y, quote, true))
  {
    var x := [BACKSLASH] + y;
    assert x[..1] == [BACKSLASH] && x[1..] == y;
  }

  // ... an escaped one as a backslash and more ...
  lemma RawEscaped(t: Bytes, quote: Byte, rest: Bytes)
    requires t != [] && Lookup(t).Some? && IsQuote(quote)
    ensures var r := Raw(t, quote, rest); r.Some? ==> r.value.lit != [] && r.value.lit[0] == BACKSLASH
  {
    var x := Escaped(t) + ([quote] + rest);
    assert x == [BACKSLASH] + x[1..];
    BackslashAsItself(x[1..], quote);
  }

  lemma EscapedBackslash(t: Bytes, u: Bytes)
    requires t != [] && t[0] == BACKSLASH
    ensures Escaped(t) + u == [BACKSLASH] + ([BACKSLASH] + (Escaped(t[1..]) + u))
  {
    assert Escaped(t) == [BACKSLASH] + [BACKSLASH] + Escaped(t[1..]);
    TwoInFront([BACKSLASH], Escaped(t[1..]), u);
  }

  lemma TwoInFront(b: Bytes, e: Bytes, u: Bytes)
    ensures b + b + e + u == b + (b + (e + u))
  {
    Regroup(b + b, e, u);
    Regroup(b, b, e + u);
  }

  // ... and a backslash as two.
  lemma RawBackslash(t: Bytes, quote: Byte, rest: Bytes)
    requires t != [] && t[0] == BACKSLASH && IsQuote(quote)
    ensures Raw(t, quote, rest) == Push([BACKSLASH, BACKSLASH], Raw(t[1..], quote, rest))
  {
    var y := Escaped(t[1..]) + ([quote] + rest);
    EscapedBackslash(t, [quote] + rest);
    BackslashAsItself([BACKSLASH] + y, quote);
    BackslashAsItself(y, quote);
    PushTwice([BACKSLASH], [BACKSLASH], Decoded(y, quote, true));
    assert [BACKSLASH] + [BACKSLASH] == [BACKSLASH, BACKSLASH];
  }

  // Backslashes multiply, so they never make up for some that were dropped.
  lemma {:induction false} BackslashesGrow(t: Bytes, k: nat, quote: Byte, rest: Bytes)
    requires 1 <= k <= |t| && IsQuote(quote) && forall i :: 0 <= i < k ==> t[i] == BACKSLASH
    ensures Raw(t, quote, rest) != Some(Token(t[k..], rest))
    decreases |t|
  {
    RawBackslash(t, quote, rest);
    var tail := t[1..];
    var r := Raw(tail, quote, rest);
    if r.Some? && [BACKSLASH, BACKSLASH] + r.value.lit == t[k..] {
      assert t[k] == t[k..][0] == BACKSLASH && t[k + 1] == t[k..][1] == BACKSLASH;
      assert r.value.lit == t[k..][2..] == tail[k + 1..];
      BackslashesGrow(tail, k + 1, quote, rest);
    }
  }

  lemma EscapedIsLost(t: Bytes, quote: Byte, rest: Bytes)
    requires t != [] && Lookup(t).Some? && IsQuote(quote)
    ensures Raw(t, quote, rest) != Some(Token(t, rest))
  {
    RawEscaped(t, quote, rest);
    if t[0] == BACKSLASH {
      RawBackslash(t, quote, rest);
      var r := Raw(t[1..], quote, rest);
      if r.Some? && [BACKSLASH, BACKSLASH] + r.value.lit == t {
        assert t[1] == BACKSLASH && r.value.lit == t[2..] == t[1..][1..];
        BackslashesGrow(t[1..], 1, quote, rest);
      }
    }
  }

  lemma {:induction false} RawRoundTrip(t: Bytes, quote: Byte, rest: Bytes)
    requires IsQuote(quote)
    ensures Raw(t, quote, rest) == Some(Token(t, rest)) <==> Untouched(t) && (rest == [] || rest[0] != quote)
    decreases |t|
  {
    if t == [] {
      RawEmpty(quote, rest);
    } else if Lookup(t).Some? {
      EscapedIsLost(t, quote, rest);
    } else {
      var w := DecodeRune(t).width;
      RawCopied(t, quote, rest);
      RawRoundTrip(t[w..], quote, rest);
      PushIsWhole(t, w, Raw(t[w..], quote, rest), rest);
    }
  }

  lemma PushIsWhole(t: Bytes, w: nat, r: Option<Token>, rest: Bytes)
    requires w <= |t|
    ensures Push(t[..w], r) == Some(Token(t, rest)) <==> r == Some(Token(t[w..], rest))
  {
    assert t == t[..w] + t[w..];
    if r.Some? { SamePrefix(t[..w], r.value.lit, t[w..]); }
  }

  lemma RawEmpty(quote: Byte, rest: Bytes)
    requires IsQuote(quote)
    ensures Raw([], quote, rest) == Some(Token([], rest)) <==> rest == [] || rest[0] != quote
  {
    var u := [quote] + rest;
    assert Escaped([]) + u == u && u[1..] == rest;
    if rest != [] && rest[0] == quote {
      assert u[2..] == rest[1..];
      RestIsShorter(rest[1..], quote, true);
    }
  }

  /** Which texts the scanner reads back: with backslash escapes off, those the escaper leaves
      alone. */
  predicate Survives(t: Bytes, noBackslash: bool) {
    if noBackslash then Untouched(t) else Faithful(t)
  }

  /** Round trip, for every byte string: the quoted, escaped text scans back to the text and
      stops just after the closing quote, if and only if no further quote follows and no
      multi-byte rune is mistaken for a special character or, with backslash escapes off,
      nothing had to be escaped. */
  lemma EscapeRoundTrip(t: Bytes, quote: Byte, rest: Bytes, noBackslash: bool)
    requires IsQuote(quote)
    ensures Decoded(Escaped(t) + ([quote] + rest), quote, noBackslash) == Some(Token(t, rest))
      <==> Survives(t, noBackslash) && (rest == [] || rest[0] != quote)
  {
    if noBackslash { RawRoundTrip(t, quote, rest); } else { ReadBackRoundTrip(t, quote, rest); }
  }

  /** ASCII texts always survive. */
  lemma {:induction false} AsciiIsFaithful(t: Bytes)
    requires forall i :: 0 <= i < |t| ==> t[i] < 0x80
    ensures Faithful(t)
  {
    if t != [] { AsciiIsFaithful(t[1..]); }
  }

  /** U+0127 ends in the byte of a single quote and comes back as that quote. */
  lemma TruncatedRuneIsLost()
    ensures !Faithful([0xc4, 0xa7]) && Escaped([0xc4, 0xa7]) == [BACKSLASH, SINGLE_QUOTE]
  {
    var t: Bytes := [0xc4, 0xa7];
    assert Complete(t) && Value(t) == 0x127;
    assert t[2..] == [] && Escaped([]) == [];
  }

  // ------------------------------------------------------------------- LIKE patterns

  // How many bytes of a pattern are written together: an escaped wildcard, or one byte.
  function LikeSize(p: Bytes): (n: nat)
    requires p != []
    ensures 0 < n <= |p|
  {
    if p[0] == BACKSLASH && |p| > 1 && (p[1] == PERCENT || p[1] == UNDERSCORE) then 2 else 1
  }

  function LikeHead(p: Bytes, quote: Byte): Bytes
    requires p != []
  {
    if p[0] == quote then [quote, quote]
    else if p[0] == BACKSLASH && LikeSize(p) == 1 then [BACKSLASH, BACKSLASH]
    else p[..LikeSize(p)]
  }

  /** A LIKE pattern as a literal: quotes are doubled, escaped wildcards are left as they are,
      and any other backslash is doubled. */
  function LikeLiteral(p: Bytes, quote: Byte): Bytes {
    if p == [] then [] else LikeHead(p, quote) + LikeLiteral(p[LikeSize(p)..], quote)
  }

  // Escaped wildcards go into the literal as they are.
  lemma WildcardsAreKept(p: Bytes, quote: Byte)
    requires IsQuote(quote)
    ensures LikeLiteral([92, 37] + p, quote) == [92, 37] + LikeLiteral(p, quote)
    ensures LikeLiteral([92, 95] + p, quote) == [92, 95] + LikeLiteral(p, quote)
  {
    var a: Bytes, b: Bytes := [92, 37] + p, [92, 95] + p;
    assert a[..2] == [92, 37] && a[2..] == p && b[..2] == [92, 95] && b[2..] == p;
  }

  lemma HeadMeans(p: Bytes, quote: Byte, v: Bytes)
    requires IsQuote(quote) && p != []
    ensures Decoded(LikeHead(p, quote) + v, quote, false) == Push(p[..LikeSize(p)], Decoded(v, quote, false))
  {
    if p[0] == quote {
      assert p[..1] == [quote];
      QuoteMeans(v, quote, false);
    } else if p[0] != BACKSLASH {
      assert p[..1] == [p[0]];
      PlainMeans(p[0], v, quote, false);
    } else if LikeSize(p) == 2 {
      assert p[..2] == [BACKSLASH, p[1]];
      EscapeMeans(p[1], v, quote);
    } else {
      assert p[..1] == [BACKSLASH];
      EscapeMeans(BACKSLASH, v, quote);
    }
  }

  lemma {:induction false} LikeDecodes(p: Bytes, quote: Byte, u: Bytes)
    requires IsQuote(quote)
    ensures Decoded(LikeLiteral(p, quote) + u, quote, false) == Push(p, Decoded(u, quote, false))
    decreases |p|
  {
    if p == [] {
      assert LikeLiteral(p, quote) + u == u;
      PushTwice([], [], Decoded(u, quote, false));
    } else {
      var n := LikeSize(p);
      var rest := LikeLiteral(p[n..], quote);
      Regroup(LikeHead(p, quote), rest, u);
      HeadMeans(p, quote, rest + u);
      LikeDecodes(p[n..], quote, u);
      PushTwice(p[..n], p[n..], Decoded(u, quote, false));
      assert p == p[..n] + p[n..];
    }
  }

  /** Every LIKE pattern scans back to its own bytes, escaped wildcards included, if and only if
      no further quote follows. */
  lemma LikeRoundTrip(p: Bytes, quote: Byte, rest: Bytes)
    requires IsQuote(quote)
    ensures Decoded(LikeLiteral(p, quote) + ([quote] + rest), quote, false) == Some(Token(p, rest))
      <==> rest == [] || rest[0] != quote
  {
    LikeDecodes(p, quote, [quote] + rest);
    if rest != [] && rest[0] == quote {
      assert [quote] + rest == [quote, quote] + rest[1..];
      QuoteMeans(rest[1..], quote, false);
      RestIsShorter(rest[1..], quote, false);
    } else {
      CloseMeans(rest, quote, false);
      assert p + [] == p;
    }
  }
}
