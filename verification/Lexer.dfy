/** String literals: the scanner with its lazy buffer returns what eager decoding returns. */
module Lexer {
  import opened Common
  import opened Encoding
  import opened Utf8

  const BACKSLASH: Byte := 92
  const SINGLE_QUOTE: Byte := 39
  const DOUBLE_QUOTE: Byte := 34
  const PERCENT: Byte := 37
  const UNDERSCORE: Byte := 95

  ghost predicate IsQuote(q: Byte) {
    q == SINGLE_QUOTE || q == DOUBLE_QUOTE
  }

  // --------------------------------------------------------------- eager decoding

  datatype Token = Token(lit: Bytes, rest: Bytes)

  function Push(b: Bytes, r: Option<Token>): Option<Token> {
    if r.Some? then Some(r.value.(lit := b + r.value.lit)) else None
  }

  // The bytes an escape sequence stands for, given what follows the backslash.
  function Unescaped(t: Bytes): Bytes
    requires t != []
  {
    match t[0]
    case 110 => [10]
    case 48 => [0]
    case 98 => [8]
    case 90 => [26]
    case 114 => [13]
    case 116 => [9]
    case 37 => [BACKSLASH, 37]
    case 95 => [BACKSLASH, 95]
    case _ => t[..DecodeRune(t).width]
  }

  // What stands at the front of a literal: its end, a backslash with nothing after it, or
  // `size` bytes of source that stand for `bytes`.
  datatype Piece = Close | Dangling | Chunk(bytes: Bytes, size: nat)

  function PieceOf(t: Bytes, quote: Byte, noBackslash: bool): (p: Piece)
    requires t != []
    ensures p.Chunk? ==> 0 < p.size <= |t|
  {
    if t[0] == quote then
      if |t| > 1 && t[1] == quote then Chunk([quote], 2) else Close
    else if t[0] == BACKSLASH && !noBackslash then
      if |t| == 1 then Dangling else Chunk(Unescaped(t[1..]), 1 + DecodeRune(t[1..]).width)
    else Chunk(t[..DecodeRune(t).width], DecodeRune(t).width)
  }

  /** What follows an opening quote, decoded with every byte buffered: the literal and the
      text after its closing quote, or None when it never closes. */
  function Decoded(t: Bytes, quote: Byte, noBackslash: bool): Option<Token> {
    if t == [] then None
    else match PieceOf(t, quote, noBackslash)
      case Close => Some(Token([], t[1..]))
      case Dangling => None
      case Chunk(bytes, size) => Push(bytes, Decoded(t[size..], quote, noBackslash))
  }

  lemma PushTwice(a: Bytes, b: Bytes, r: Option<Token>)
    ensures Push(a, Push(b, r)) == Push(a + b, r)
    ensures Push([], r) == r
  {
    if r.Some? {
      assert a + (b + r.value.lit) == a + b + r.value.lit;
      assert [] + r.value.lit == r.value.lit;
    }
  }

  // ------------------------------------------------------ what a literal means, byte by byte

  // The bytes of a rune after its first stand for themselves also one by one.
  lemma {:induction false} Continuations(x: Bytes, n: nat, quote: Byte, noBackslash: bool)
    requires IsQuote(quote) && n <= |x| && forall i :: 0 <= i < n ==> Continues(x[i])
    ensures Decoded(x, quote, noBackslash) == Push(x[..n], Decoded(x[n..], quote, noBackslash))
    decreases n
  {
    if n == 0 {
      assert x[n..] == x;
      PushTwice([], [], Decoded(x, quote, noBackslash));
    } else {
      OneContinuation(x, quote, noBackslash);
      Continuations(x[1..], n - 1, quote, noBackslash);
      PushTwice(x[..1], x[1..][..n - 1], Decoded(x[n..], quote, noBackslash));
      Slices(x, 1, n);
    }
  }

  lemma OneContinuation(x: Bytes, quote: Byte, noBackslash: bool)
    requires IsQuote(quote) && x != [] && Continues(x[0])
    ensures Decoded(x, quote, noBackslash) == Push(x[..1], Decoded(x[1..], quote, noBackslash))
  {
    assert DecodeRune(x).width == 1;
    assert PieceOf(x, quote, noBackslash) == Chunk(x[..1], 1);
  }

  lemma Slices(x: Bytes, m: nat, n: nat)
    requires m <= n <= |x|
    ensures x[m..][n - m..] == x[n..] && x[..m] + x[m..][..n - m] == x[..n]
  {
  }

  lemma RuneIsBytes(x: Bytes, quote: Byte, noBackslash: bool)
    requires IsQuote(quote) && x != [] && 0x80 <= x[0]
    ensures Decoded(x, quote, noBackslash) == Push(x[..1], Decoded(x[1..], quote, noBackslash))
  {
    var w := DecodeRune(x).width;
    assert PieceOf(x, quote, noBackslash) == Chunk(x[..w], w);
    Continuations(x[1..], w - 1, quote, noBackslash);
    PushTwice(x[..1], x[1..][..w - 1], Decoded(x[w..], quote, noBackslash));
    Slices(x, 1, w);
  }

  /** A byte that is neither the quote nor an escaping backslash stands for itself. */
  lemma PlainMeans(b: Byte, u: Bytes, quote: Byte, noBackslash: bool)
    requires IsQuote(quote) && b != quote && (b == BACKSLASH ==> noBackslash)
    ensures Decoded([b] + u, quote, noBackslash) == Push([b], Decoded(u, quote, noBackslash))
  {
    var x := [b] + u;
    assert x[..1] == [b] && x[1..] == u;
    if 0x80 <= b { RuneIsBytes(x, quote, noBackslash); } else { assert DecodeRune(x).width == 1; }
  }

  /** Two quotes in a row stand for one; a single one ends the literal; a text that ends before
      has no literal. */
  lemma QuoteMeans(u: Bytes, quote: Byte, noBackslash: bool)
    requires IsQuote(quote)
    ensures Decoded([quote, quote] + u, quote, noBackslash) == Push([quote], Decoded(u, quote, noBackslash))
  {
    assert ([quote, quote] + u)[2..] == u;
  }

  lemma CloseMeans(rest: Bytes, quote: Byte, noBackslash: bool)
    requires IsQuote(quote) && (rest == [] || rest[0] != quote)
    ensures Decoded([quote] + rest, quote, noBackslash) == Some(Token([], rest))
    ensures Decoded([], quote, noBackslash) == None && Decoded([BACKSLASH], quote, false) == None
  {
    assert ([quote] + rest)[1..] == rest;
  }

  /** After a backslash n, 0, b, Z, r and t stand for a newline, NUL, backspace, Control-Z,
      carriage return and tab; a percent sign and an underscore keep the backslash; any other
      byte loses it. */
  lemma EscapeMeans(c: Byte, u: Bytes, quote: Byte)
    requires IsQuote(quote)
    ensures var d, r := Decoded([BACKSLASH, c] + u, quote, false), Decoded(u, quote, false);
      && (c == 110 ==> d == Push([10], r)) && (c == 48 ==> d == Push([0], r)) && (c == 98 ==> d == Push([8], r))
      && (c == 90 ==> d == Push([26], r)) && (c == 114 ==> d == Push([13], r)) && (c == 116 ==> d == Push([9], r))
      && (c == 37 || c == 95 ==> d == Push([92, c], r))
      && (c !in {110, 48, 98, 90, 114, 116, 37, 95} ==> d == Push([c], r))
  {
    var x, y := [BACKSLASH, c] + u, [c] + u;
    assert x[1..] == y && y[1..] == u && y[..1] == [c];
    if 0x80 <= c {
      var w := DecodeRune(y).width;
      assert x[1 + w..] == y[w..] && PieceOf(y, quote, false) == Chunk(y[..w], w);
      RuneIsBytes(y, quote, false);
    } else {
      assert x[2..] == u && DecodeRune(y).width == 1;
    }
  }

  // The same decoding, by position in a fixed text.
  function DecodedFrom(s: Bytes, off: nat, quote: Byte, noBackslash: bool): Option<Token>
    decreases |s| - off
  {
    if off >= |s| then None
    else match PieceOf(s[off..], quote, noBackslash)
      case Close => Some(Token([], s[off + 1..]))
      case Dangling => None
      case Chunk(bytes, size) => Push(bytes, DecodedFrom(s, off + size, quote, noBackslash))
  }

  lemma {:induction false} DecodedByPosition(s: Bytes, off: nat, quote: Byte, noBackslash: bool)
    requires off <= |s|
    ensures DecodedFrom(s, off, quote, noBackslash) == Decoded(s[off..], quote, noBackslash)
    decreases |s| - off
  {
    if off < |s| {
      var p := PieceOf(s[off..], quote, noBackslash);
      if p.Chunk? {
        DecodedByPosition(s, off + p.size, quote, noBackslash);
        assert s[off..][p.size..] == s[off + p.size..];
      }
    }
  }

  // One piece further: `goal` is what the whole literal decodes to, `text` what has been
  // decoded of it up to position `off`.
  ghost predicate OnTrack(goal: Option<Token>, text: Bytes, s: Bytes, off: nat, quote: Byte, noBackslash: bool) {
    goal == Push(text, DecodedFrom(s, off, quote, noBackslash))
  }

  lemma OnePiece(
    goal: Option<Token>, text: Bytes, s: Bytes, off: nat, quote: Byte, noBackslash: bool, piece: Piece)
    returns (off': nat, text': Bytes)
    requires off < |s| && OnTrack(goal, text, s, off, quote, noBackslash)
    requires piece == PieceOf(s[off..], quote, noBackslash)
    ensures piece.Close? ==> goal == Some(Token(text, s[off + 1..]))
    ensures piece.Dangling? ==> off' == |s| && text' == text
    ensures piece.Chunk? ==> off' == off + piece.size <= |s| && text' == text + piece.bytes
    ensures !piece.Close? ==> OnTrack(goal, text', s, off', quote, noBackslash)
  {
    off', text' := |s|, text;
    match piece
    case Close => assert text + [] == text;
    case Dangling =>
    case Chunk(b, n) =>
      off', text' := off + n, text + b;
      PushTwice(text, b, DecodedFrom(s, off + n, quote, noBackslash));
  }

  lemma OffTheEnd(goal: Option<Token>, text: Bytes, s: Bytes, off: nat, quote: Byte, noBackslash: bool)
    requires off >= |s| && OnTrack(goal, text, s, off, quote, noBackslash)
    ensures goal == None
  {
  }

  // A rune written back is the text it was read from.
  lemma WrittenRune(s: Bytes, off: nat)
    requires off < |s|
    ensures var r := DecodeRune(s[off..]);
      r.width > 1 ==> 0x80 <= r.value <= 0x10ffff && EncodeRune(r.value) == s[off..off + r.width]
    ensures DecodeRune(s[off..]).width == 1 ==> [s[off]] == s[off..off + 1]
  {
    var r := DecodeRune(s[off..]);
    if r.width > 1 {
      EncodeDecoded(s[off..]);
      assert s[off..][..r.width] == s[off..off + r.width];
    }
  }

  // ------------------------------------------------------------------ the scanner

  class Scanner {
    const s: Bytes
    const noBackslash: bool
    var offset: nat
    var w: nat
    var buf: Bytes

    constructor (s: Bytes, noBackslash: bool)
      ensures this.s == s && this.noBackslash == noBackslash && offset == 0
    {
      this.s := s;
      this.noBackslash := noBackslash;
      offset, w, buf := 0, 0, [];
    }

    // At the end of the text the width is left as it was.
    method Peek() returns (ch: nat)
      modifies this`w
      ensures offset >= |s| ==> ch == REPLACEMENT && w == old(w)
      ensures offset < |s| ==> w == DecodeRune(s[offset..]).width
      ensures offset < |s| ==> ch == if w > 1 then DecodeRune(s[offset..]).value else s[offset]
    {
      if offset >= |s| {
        return REPLACEMENT;
      }
      var r := DecodeRune(s[offset..]);
      w := r.width;
      ch := if w > 1 then r.value else s[offset];
    }

    method Inc()
      requires offset < |s| && w == DecodeRune(s[offset..]).width
      modifies this`offset
      ensures offset == old(offset) + w <= |s|
    {
      offset := offset + w;
    }

    // lazyBuf.writeRune: multi-byte runes are encoded, others written as a byte.
    static function Written(ch: nat, w: nat): Bytes
      requires w > 1 ==> 0x80 <= ch <= 0x10ffff
    {
      if w > 1 then EncodeRune(ch) else [ch % 256]
    }

    // handleEscape: the scanner stands on a backslash.
    method HandleEscape() returns (ch: nat)
      requires offset < |s| && s[offset] == BACKSLASH && w == 1
      modifies this
      ensures offset == old(offset) + 1
      ensures offset == |s| ==> w == 1 && buf == old(buf)
      ensures offset < |s| ==> w == DecodeRune(s[offset..]).width && (w > 1 ==> 0x80 <= ch <= 0x10ffff)
      ensures offset < |s| ==> buf + Written(ch, w) == old(buf) + Unescaped(s[offset..])
    {
      Inc();
      ch := Peek();
      if offset < |s| && w > 1 {
        EncodeDecoded(s[offset..]);
        return;
      }
      match ch {
        case 110 => ch := 10;
        case 48 => ch := 0;
        case 98 => ch := 8;
        case 90 => ch := 26;
        case 114 => ch := 13;
        case 116 => ch := 9;
        case 37 => buf := buf + [BACKSLASH];
        case 95 => buf := buf + [BACKSLASH];
        case _ =>
      }
    }

    // One rune is written, if the buffer is in use, and left behind.
    method Advance(useBuf: bool, ch: nat) returns (next: nat)
      requires offset < |s| && w == DecodeRune(s[offset..]).width && (w > 1 ==> 0x80 <= ch <= 0x10ffff)
      modifies this
      ensures offset == old(offset) + old(w) <= |s|
      ensures buf == if useBuf then old(buf) + Written(ch, old(w)) else old(buf)
      ensures offset < |s| ==> w == DecodeRune(s[offset..]).width
      ensures offset < |s| ==> next == if w > 1 then DecodeRune(s[offset..]).value else s[offset]
    {
      if useBuf {
        buf := buf + Written(ch, w);
      }
      Inc();
      next := Peek();
    }

    // The literal so far: in the buffer, or still only in the source text.
    ghost function Text(pos: nat, useBuf: bool): Bytes
      requires pos < offset <= |s|
      reads this
    {
      if useBuf then buf else s[pos + 1..offset]
    }

    // Peek has been called: `ch` is the rune ahead, if there is one.
    ghost predicate Looking(ch: nat)
      reads this
    {
      && offset <= |s|
      && (offset < |s| ==> w == DecodeRune(s[offset..]).width)
      && (offset < |s| ==> ch == if w > 1 then DecodeRune(s[offset..]).value else s[offset])
    }

    method ScanPlain(pos: nat, useBuf: bool, ch: nat) returns (next: nat)
      requires pos < offset < |s| && Looking(ch)
      modifies this
      ensures Looking(next) && offset == old(offset) + old(w)
      ensures Text(pos, useBuf) == old(Text(pos, useBuf)) + s[old(offset)..offset]
    {
      WrittenRune(s, offset);
      next := Advance(useBuf, ch);
    }

    // Two quotes in a row stand for one; a single one ends the literal.
    method ScanQuote(pos: nat, useBuf: bool, quote: Byte) returns (lit: Option<Bytes>, next: nat)
      requires pos < offset < |s| && Looking(quote) && s[offset] == quote < 0x80
      modifies this
      ensures lit.Some? ==> offset == old(offset) + 1 && lit.value == old(Text(pos, useBuf))
      ensures lit.Some? ==> offset < |s| ==> s[offset] != quote
      ensures lit.None? ==> offset == old(offset) + 2 <= |s| && s[old(offset) + 1] == quote
      ensures lit.None? ==> Looking(next) && buf == old(Text(pos, useBuf)) + [quote]
    {
      Inc();
      var after := Peek();
      assert s[pos..offset][1..offset - pos - 1] == s[pos + 1..offset - 1];
      if after != quote {
        return Some(if useBuf then buf else s[pos..offset][1..offset - pos - 1]), 0;
      }
      if !useBuf {
        buf := s[pos..offset][1..offset - pos - 1];
      }
      next := Advance(true, quote);
      lit := None;
    }

    method ScanEscape(pos: nat, useBuf: bool) returns (next: nat)
      requires pos < offset < |s| && Looking(BACKSLASH) && s[offset] == BACKSLASH
      modifies this
      ensures old(offset) + 1 == |s| ==> offset == |s|
      ensures old(offset) + 1 < |s| ==>
        offset == old(offset) + 1 + DecodeRune(s[old(offset) + 1..]).width && Looking(next)
      ensures old(offset) + 1 < |s| ==> buf == old(Text(pos, useBuf)) + Unescaped(s[old(offset) + 1..])
    {
      if !useBuf {
        buf := s[pos..offset][1..];
      }
      var ch := HandleEscape();
      if offset == |s| {
        buf := buf + Written(ch, w);
        return 0;
      }
      next := Advance(true, ch);
    }

    // The loop body: one piece of the literal.
    method ScanPiece(pos: nat, useBuf: bool, ending: Byte, ch: nat, ghost piece: Piece)
      returns (lit: Option<Bytes>, useBuf': bool, next: nat)
      requires pos < offset < |s| && Looking(ch) && ending < 0x80 && ending != BACKSLASH
      requires piece == PieceOf(s[offset..], ending, noBackslash)
      modifies this
      ensures old(offset) < offset <= |s|
      ensures lit == if piece.Close? then Some(old(Text(pos, useBuf))) else None
      ensures piece.Close? ==> offset == old(offset) + 1
      ensures piece.Dangling? ==> offset == |s|
      ensures !piece.Close? ==> Looking(next)
      ensures piece.Chunk? ==> offset == old(offset) + piece.size
      ensures piece.Chunk? ==> Text(pos, useBuf') == old(Text(pos, useBuf)) + piece.bytes
    {
      ghost var t := s[offset..];
      assert t[0] == s[offset] && (|t| > 1 ==> t[1] == s[offset + 1] && t[1..] == s[offset + 1..]);
      if ch == ending {
        useBuf' := true;
        lit, next := ScanQuote(pos, useBuf, ending);
      } else if ch == BACKSLASH && !noBackslash {
        useBuf' := true;
        lit := None;
        next := ScanEscape(pos, useBuf);
      } else {
        useBuf' := useBuf;
        lit := None;
        assert t[..w] == s[offset..offset + w];
        next := ScanPlain(pos, useBuf, ch);
      }
    }

    // The same, keeping track of the decoding: `goal` is what the whole literal decodes to.
    method ScanTracked(pos: nat, useBuf: bool, ending: Byte, ch: nat, ghost goal: Option<Token>, ghost text: Bytes)
      returns (lit: Option<Bytes>, useBuf': bool, next: nat, ghost text': Bytes)
      requires pos < offset < |s| && Looking(ch) && ending < 0x80 && ending != BACKSLASH
      requires text == Text(pos, useBuf) && OnTrack(goal, text, s, offset, ending, noBackslash)
      modifies this
      ensures old(offset) < offset <= |s|
      ensures lit.Some? ==> goal == Some(Token(lit.value, s[offset..]))
      ensures lit.None? ==> Looking(next) && OnTrack(goal, text', s, offset, ending, noBackslash)
      ensures lit.None? && offset < |s| ==> text' == Text(pos, useBuf')
    {
      ghost var piece := PieceOf(s[offset..], ending, noBackslash);
      ghost var off';
      off', text' := OnePiece(goal, text, s, offset, ending, noBackslash, piece);
      lit, useBuf', next := ScanPiece(pos, useBuf, ending, ch, piece);
    }

    method ScanPieces(pos: nat, ending: Byte, ch0: nat, ghost goal: Option<Token>) returns (lit: Option<Bytes>)
      requires offset == pos + 1 <= |s| && Looking(ch0) && ending < 0x80 && ending != BACKSLASH
      requires OnTrack(goal, [], s, offset, ending, noBackslash)
      modifies this
      ensures goal.None? ==> lit == None
      ensures goal.Some? ==> lit == Some(goal.value.lit) && offset <= |s| && s[offset..] == goal.value.rest
    {
      var useBuf, ch := false, ch0;
      ghost var text: Bytes := [];
      while offset < |s|
        invariant pos < offset <= |s|
        invariant Looking(ch) && (offset < |s| ==> text == Text(pos, useBuf))
        invariant OnTrack(goal, text, s, offset, ending, noBackslash)
        decreases |s| - offset
      {
        lit, useBuf, ch, text := ScanTracked(pos, useBuf, ending, ch, goal, text);
        if lit.Some? {
          return;
        }
      }
      OffTheEnd(goal, text, s, offset, ending, noBackslash);
      lit := None;
    }

    /** The scanner with its lazy buffer returns exactly what eager decoding returns. */
    method ScanString() returns (lit: Option<Bytes>)
      requires offset < |s| && (s[offset] == SINGLE_QUOTE || s[offset] == DOUBLE_QUOTE)
      modifies this
      ensures var d := Decoded(s[old(offset) + 1..], s[old(offset)], noBackslash);
        && (d.None? ==> lit == None)
        && (d.Some? ==> lit == Some(d.value.lit) && offset <= |s| && s[offset..] == d.value.rest)
    {
      var pos := offset;
      var ending := Peek();
      Inc();
      var ch := Peek();
      ghost var goal := Decoded(s[pos + 1..], s[pos], noBackslash);
      PushTwice([], [], goal);
      DecodedByPosition(s, pos + 1, s[pos], noBackslash);
      lit := ScanPieces(pos, ending, ch, goal);
    }
  }
}
