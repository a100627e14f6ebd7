/** Text rows, and result rows read from a stream of packets up to the end-of-file packet. */
module RowStream {
  import opened Common
  import opened Encoding
  import opened Packets
  import B = BinaryRow

  // ---------------------------------------------------------------------- text rows

  // A value on its way into a text row: nil, or the bytes of a string.
  datatype Cell = Nil | Str(b: Text)

  /** formatValue: nil is written as the four letters, not as the protocol's NULL marker. */
  function FormatValue(c: Cell): Text {
    if c.Nil? then [78, 85, 76, 76] else c.b
  }

  // Cells encoded one after another.
  function Encoded(enc: Text -> Bytes, cells: seq<Cell>): Bytes {
    if cells == [] then [] else enc(FormatValue(cells[0])) + Encoded(enc, cells[1..])
  }

  function TextRow(cells: seq<Cell>): Bytes {
    Encoded(LenEncString, cells)
  }

  method BuildTextRow(cells: seq<Cell>) returns (row: Bytes)
    ensures row == TextRow(cells)
  {
    row := [];
    for j := 0 to |cells|
      invariant row + TextRow(cells[j..]) == TextRow(cells)
    {
      var b := LenEncString(FormatValue(cells[j]));
      assert cells[j..][1..] == cells[j + 1..];
      Regroup(row, b, TextRow(cells[j + 1..]));
      row := row + b;
    }
    assert row + [] == row;
  }

  type Reader = (Bytes, nat) -> Parsed<LenEncText>

  // n cells read one after another, starting at `pos`.
  function CellsBy(read: Reader, p: Bytes, pos: nat, n: nat): Parsed<seq<Cell>>
    decreases n
  {
    if n == 0 then Got([])
    else match read(p, pos)
      case Malformed => Malformed
      case Panics => Panics
      case Got(t) => B.Then([if t.isNull then Nil else Str(t.value)], CellsBy(read, p, t.next, n - 1))
  }

  // ParseText on byte-string columns.
  function TextCells(p: Bytes, pos: nat, n: nat): Parsed<seq<Cell>> {
    CellsBy(ReadLenEncStringAsBytes, p, pos, n)
  }

  method ParseText(p: Bytes, n: nat) returns (r: Parsed<seq<Cell>>)
    ensures r == TextCells(p, 0, n)
  {
    var data: seq<Cell> := [];
    var pos: nat := 0;
    ghost var goal := TextCells(p, 0, n);
    B.ThenTwice([], [], goal);
    for i := 0 to n
      invariant goal == B.Then(data, TextCells(p, pos, n - i))
    {
      var t := ReadLenEncStringAsBytes(p, pos);
      match t {
        case Malformed => return Malformed;
        case Panics => return Panics;
        case Got(text) =>
          var cell := if text.isNull then Nil else Str(text.value);
          B.ThenTwice(data, [cell], TextCells(p, text.next, n - i - 1));
          data := data + [cell];
          pos := text.next;
      }
    }
    assert data + [] == data;
    r := Got(data);
  }

  function Written(cells: seq<Cell>): (w: seq<Cell>)
    ensures |w| == |cells| && forall i :: 0 <= i < |w| ==> w[i] == Str(FormatValue(cells[i]))
  {
    if cells == [] then [] else [Str(FormatValue(cells[0]))] + Written(cells[1..])
  }

  lemma CellIsRead(p: Bytes, pos: nat, v: Text, after: Bytes)
    requires pos <= |p| && p[pos..] == LenEncString(v) + after
    ensures ReadLenEncStringAsBytes(p, pos) == Got(LenEncText(v, pos + |LenEncString(v)|, false))
  {
    B.CutOut(p, pos, LenEncString(v), after);
    LenEncStringRoundTrip(v, p[..pos], after);
  }

  // `read` reads back what `enc` wrote, wherever it stands in `p`.
  ghost predicate Inverts(read: Reader, enc: Text -> Bytes, p: Bytes) {
    forall pos: nat, v: Text, after :: pos <= |p| && p[pos..] == enc(v) + after ==>
      read(p, pos) == Got(LenEncText(v, pos + |enc(v)|, false))
  }

  /** Cells written one after another are read one after another, by any such reader. */
  lemma {:induction false} CellsRoundTrip(read: Reader, enc: Text -> Bytes, p: Bytes, pos: nat, cells: seq<Cell>)
    requires Inverts(read, enc, p) && pos <= |p| && p[pos..] == Encoded(enc, cells)
    ensures CellsBy(read, p, pos, |cells|) == Got(Written(cells))
    decreases |cells|
  {
    if cells != [] {
      var v, tail := FormatValue(cells[0]), Encoded(enc, cells[1..]);
      B.CutOut(p, pos, enc(v), tail);
      CellsRoundTrip(read, enc, p, pos + |enc(v)|, cells[1..]);
    }
  }

  lemma TextInverts(p: Bytes)
    ensures Inverts(ReadLenEncStringAsBytes, LenEncString, p)
  {
    forall pos: nat, v: Text, after | pos <= |p| && p[pos..] == LenEncString(v) + after
      ensures ReadLenEncStringAsBytes(p, pos) == Got(LenEncText(v, pos + |LenEncString(v)|, false))
    {
      CellIsRead(p, pos, v, after);
    }
  }

  /** Text rows come back as written exactly when no value is nil. */
  lemma TextRoundTrip(cells: seq<Cell>)
    ensures TextCells(TextRow(cells), 0, |cells|) == Got(cells) <==> forall i :: 0 <= i < |cells| ==> cells[i].Str?
  {
    assert TextRow(cells)[0..] == TextRow(cells);
    TextInverts(TextRow(cells));
    CellsRoundTrip(ReadLenEncStringAsBytes, LenEncString, TextRow(cells), 0, cells);
    if i :| 0 <= i < |cells| && !cells[i].Str? {
      assert Written(cells)[i] != cells[i];
    } else {
      assert Written(cells) == cells;
    }
  }

  /** A nil comes back as the text NULL. */
  lemma NilIsLost()
    ensures TextCells(TextRow([Nil]), 0, 1) == Got([Str([78, 85, 76, 76])])
  {
    var cells := [Nil];
    assert TextRow(cells)[0..] == TextRow(cells);
    TextInverts(TextRow(cells));
    CellsRoundTrip(ReadLenEncStringAsBytes, LenEncString, TextRow(cells), 0, cells);
    assert Written(cells) == [Str([78, 85, 76, 76])];
  }

  // ------------------------------------------------------- text rows as a server writes them

  // Cells encoded one after another, nil as the protocol's NULL marker.
  function ServerCells(enc: Text -> Bytes, cells: seq<Cell>): Bytes {
    if cells == [] then []
    else (if cells[0].Nil? then [0xfb] else enc(cells[0].b)) + ServerCells(enc, cells[1..])
  }

  function ServerRow(cells: seq<Cell>): Bytes {
    ServerCells(LenEncString, cells)
  }

  ghost predicate ReadsNull(read: Reader, p: Bytes) {
    forall pos: nat :: pos < |p| && p[pos] == 0xfb ==> read(p, pos) == Got(LenEncText([], pos + 1, true))
  }

  lemma {:induction false} ServerCellsRoundTrip(
    read: Reader, enc: Text -> Bytes, p: Bytes, pos: nat, cells: seq<Cell>)
    requires Inverts(read, enc, p) && ReadsNull(read, p) && pos <= |p| && p[pos..] == ServerCells(enc, cells)
    ensures CellsBy(read, p, pos, |cells|) == Got(cells)
    decreases |cells|
  {
    if cells != [] {
      var head := if cells[0].Nil? then [0xfb] else enc(cells[0].b);
      B.CutOut(p, pos, head, ServerCells(enc, cells[1..]));
      assert cells[0].Nil? ==> p[pos] == p[pos..][0] == 0xfb;
      ServerCellsRoundTrip(read, enc, p, pos + |head|, cells[1..]);
      assert cells == [cells[0]] + cells[1..];
    }
  }

  lemma TextReadsNull(p: Bytes)
    ensures ReadsNull(ReadLenEncStringAsBytes, p)
  {
    forall pos: nat | pos < |p| && p[pos] == 0xfb
      ensures ReadLenEncStringAsBytes(p, pos) == Got(LenEncText([], pos + 1, true))
    {
      NullStringIff(p, pos);
    }
  }

  /** Every row comes back as a server wrote it, nil cells included. */
  lemma ServerRoundTrip(cells: seq<Cell>)
    ensures TextCells(ServerRow(cells), 0, |cells|) == Got(cells)
  {
    var p := ServerRow(cells);
    assert p[0..] == p;
    TextInverts(p);
    TextReadsNull(p);
    ServerCellsRoundTrip(ReadLenEncStringAsBytes, LenEncString, p, 0, cells);
  }

  // ------------------------------------------------------------------- row streams

  datatype RowsError = Transport(e: ReadError) | ServerError | Panic

  datatype Rows = Rows(rows: seq<Bytes>, status: nat, rest: Bytes, sequence: Byte)

  datatype RowsResult = Done(rows: Rows) | Failed(error: RowsError)

  predicate IsEOFPacket(data: Bytes)
    requires data != []
  {
    data[0] == EOF_HEADER && |data| <= 5
  }

  // With protocol 4.1 the end-of-file packet sets the status; otherwise it stays.
  function StatusOf(data: Bytes, protocol41: bool, status: nat): Option<nat> {
    if !protocol41 then Some(status)
    else if |data| < 5 then None
    else Some(FromLittleEndian(data[3..5]))
  }

  function More(row: Bytes, r: RowsResult): RowsResult {
    if r.Done? then Done(r.rows.(rows := [row] + r.rows.rows)) else r
  }

  /** The rows up to the first end-of-file packet. */
  function ReadRows(input: Bytes, sequence: Byte, max: Limit, protocol41: bool, status: nat): RowsResult
    decreases |input|
  {
    match ReadPayload(input, sequence, max)
    case Err(e) => Failed(Transport(e))
    case Ok(p) =>
      if p.data == [] then Failed(Panic)
      else if IsEOFPacket(p.data) then
        match StatusOf(p.data, protocol41, status)
        case None => Failed(Panic)
        case Some(s) => Done(Rows([], s, p.rest, p.sequence))
      else if p.data[0] == ERR_HEADER then Failed(ServerError)
      else More(p.data, ReadRows(p.rest, p.sequence, max, protocol41, status))
  }

  function After(done: seq<Bytes>, r: RowsResult): RowsResult {
    if r.Done? then Done(r.rows.(rows := done + r.rows.rows)) else r
  }

  lemma AfterMore(done: seq<Bytes>, row: Bytes, r: RowsResult)
    ensures After(done, More(row, r)) == After(done + [row], r)
    ensures After([], r) == r
  {
    if r.Done? {
      assert done + ([row] + r.rows.rows) == done + [row] + r.rows.rows;
      assert [] + r.rows.rows == r.rows.rows;
    }
  }

  method ReadResultRows(c: Conn, protocol41: bool, status: nat) returns (r: RowsResult)
    modifies c`input, c`sequence
    ensures r == ReadRows(old(c.input), old(c.sequence), c.max, protocol41, status)
    ensures r.Done? ==> c.input == r.rows.rest && c.sequence == r.rows.sequence
  {
    var rows: seq<Bytes> := [];
    AfterMore([], [], ReadRows(c.input, c.sequence, c.max, protocol41, status));
    while true
      invariant ReadRows(old(c.input), old(c.sequence), c.max, protocol41, status)
        == After(rows, ReadRows(c.input, c.sequence, c.max, protocol41, status))
      decreases |c.input|
    {
      var data := c.ReadPacket();
      if data.Err? {
        return Failed(Transport(data.error));
      }
      if data.value == [] {
        return Failed(Panic);
      }
      if IsEOFPacket(data.value) {
        var s := StatusOf(data.value, protocol41, status);
        if s.None? {
          return Failed(Panic);
        }
        assert rows + [] == rows;
        return Done(Rows(rows, s.value, c.input, c.sequence));
      }
      if data.value[0] == ERR_HEADER {
        return Failed(ServerError);
      }
      AfterMore(rows, data.value, ReadRows(c.input, c.sequence, c.max, protocol41, status));
      rows := rows + [data.value];
    }
  }

  // A server sends the rows and then the end-of-file packet.
  function Stream(rows: seq<Bytes>, flags: nat, warnings: nat, sequence: Byte, max: Limit): Bytes {
    if rows == [] then Frames(EOFPacket(flags, warnings), sequence, max)
    else Frames(rows[0], sequence, max) + Stream(rows[1..], flags, warnings, SequenceAfter(rows[0], sequence, max), max)
  }

  function StreamSequence(rows: seq<Bytes>, sequence: Byte, max: Limit): Byte {
    if rows == [] then SequenceAfter(EOFPacket(0, 0), sequence, max)
    else StreamSequence(rows[1..], SequenceAfter(rows[0], sequence, max), max)
  }

  /** A payload the reader takes for a row. */
  predicate IsRowPacket(data: Bytes) {
    data != [] && !IsEOFPacket(data) && data[0] != ERR_HEADER
  }

  // The status a stream leaves behind.
  function StatusAfter(protocol41: bool, flags: nat, status: nat): nat {
    if protocol41 then flags else status
  }

  /** What the reader takes for a row: not an error header, not a short packet with the
      end-of-file header. */
  lemma RowPacketMeans(data: Bytes)
    ensures IsRowPacket(data) <==> data != [] && data[0] != 0xff && (data[0] != 0xfe || |data| > 5)
  {
  }

  /** An error packet ends the stream with an error. */
  lemma ErrorEnds(data: Bytes, sequence: Byte, suffix: Bytes, max: Limit, protocol41: bool, status: nat)
    requires data != [] && data[0] == 0xff
    ensures ReadRows(Frames(data, sequence, max) + suffix, sequence, max, protocol41, status) == Failed(ServerError)
  {
    FramesRoundTrip(data, sequence, suffix, max);
  }

  lemma StatusIsRead(flags: nat, warnings: nat, protocol41: bool, status: nat)
    requires flags < 0x1_0000
    ensures StatusOf(EOFPacket(flags, warnings), protocol41, status) == Some(StatusAfter(protocol41, flags, status))
  {
    assert EOFPacket(flags, warnings)[3..5] == LittleEndian(flags, 2);
    LittleEndianRoundTrip(flags, 2);
    Powers();
    ModUnique(flags, Power256(2), 0, flags);
  }

  lemma EOFIsRead(
    flags: nat, warnings: nat, sequence: Byte, suffix: Bytes, max: Limit, protocol41: bool, status: nat)
    requires flags < 0x1_0000
    ensures ReadRows(Frames(EOFPacket(flags, warnings), sequence, max) + suffix, sequence, max, protocol41, status)
      == Done(Rows([], StatusAfter(protocol41, flags, status), suffix, SequenceAfter(EOFPacket(0, 0), sequence, max)))
  {
    StatusIsRead(flags, warnings, protocol41, status);
    var status' := StatusAfter(protocol41, flags, status);
    EOFEnds(EOFPacket(flags, warnings), sequence, suffix, max, protocol41, status, status');
    SameLengthSameSequence(EOFPacket(flags, warnings), EOFPacket(0, 0), sequence, max);
  }

  lemma EOFEnds(
    data: Bytes, sequence: Byte, suffix: Bytes, max: Limit, protocol41: bool, status: nat, after: nat)
    requires data != [] && IsEOFPacket(data) && StatusOf(data, protocol41, status) == Some(after)
    ensures ReadRows(Frames(data, sequence, max) + suffix, sequence, max, protocol41, status)
      == Done(Rows([], after, suffix, SequenceAfter(data, sequence, max)))
  {
    FramesRoundTrip(data, sequence, suffix, max);
  }

  lemma SameLengthSameSequence(a: Bytes, b: Bytes, sequence: Byte, max: Limit)
    requires |a| == |b|
    ensures SequenceAfter(a, sequence, max) == SequenceAfter(b, sequence, max)
  {
    SameLengthSameCount(a, b, max);
  }

  lemma {:induction false} SameLengthSameCount(a: Bytes, b: Bytes, max: Limit)
    requires |a| == |b|
    ensures FrameCount(a, max) == FrameCount(b, max)
    decreases |a|
  {
    if max <= |a| { SameLengthSameCount(a[max..], b[max..], max); }
  }

  /** A stream of payloads closed by an end-of-file packet is read back as exactly those
      payloads, its suffix unread, if and only if each of them is a row packet. */
  lemma {:induction false} StreamRoundTrip(
    rows: seq<Bytes>, flags: nat, warnings: nat, sequence: Byte, suffix: Bytes, max: Limit, protocol41: bool,
    status: nat)
    requires flags < 0x1_0000
    ensures ReadRows(Stream(rows, flags, warnings, sequence, max) + suffix, sequence, max, protocol41, status)
      == Done(Rows(rows, StatusAfter(protocol41, flags, status), suffix, StreamSequence(rows, sequence, max)))
      <==> forall i :: 0 <= i < |rows| ==> IsRowPacket(rows[i])
    decreases |rows|
  {
    if rows == [] {
      EOFIsRead(flags, warnings, sequence, suffix, max, protocol41, status);
    } else {
      var sequence' := SequenceAfter(rows[0], sequence, max);
      var tail := Stream(rows[1..], flags, warnings, sequence', max) + suffix;
      assert Stream(rows, flags, warnings, sequence, max) + suffix == Frames(rows[0], sequence, max) + tail;
      ReadOneRow(rows[0], sequence, tail, max, protocol41, status);
      StreamRoundTrip(rows[1..], flags, warnings, sequence', suffix, max, protocol41, status);
      MoreThan(rows, ReadRows(tail, sequence', max, protocol41, status));
    }
  }

  /** A stream of rows that is cut short anywhere ends in a transport error, never in fewer rows. */
  lemma {:induction false} TruncatedStreamFails(
    rows: seq<Bytes>, flags: nat, warnings: nat, sequence: Byte, n: nat, max: Limit, protocol41: bool, status: nat)
    requires (forall i :: 0 <= i < |rows| ==> IsRowPacket(rows[i]))
    requires n < |Stream(rows, flags, warnings, sequence, max)|
    ensures var r := ReadRows(
        Stream(rows, flags, warnings, sequence, max)[..n], sequence, max, protocol41, status);
      r.Failed? && r.error.Transport?
    decreases |rows|
  {
    var all := Stream(rows, flags, warnings, sequence, max);
    if rows == [] {
      TruncatedFramesFail(EOFPacket(flags, warnings), sequence, max, n);
    } else {
      var frames, sequence' := Frames(rows[0], sequence, max), SequenceAfter(rows[0], sequence, max);
      var tail := Stream(rows[1..], flags, warnings, sequence', max);
      if n < |frames| {
        assert all[..n] == frames[..n];
        TruncatedFramesFail(rows[0], sequence, max, n);
      } else {
        assert all[..n] == frames + tail[..n - |frames|];
        ReadOneRow(rows[0], sequence, tail[..n - |frames|], max, protocol41, status);
        TruncatedStreamFails(rows[1..], flags, warnings, sequence', n - |frames|, max, protocol41, status);
      }
    }
  }

  // A row packet is taken for a row; anything else ends the reading without one.
  lemma ReadOneRow(row: Bytes, sequence: Byte, tail: Bytes, max: Limit, protocol41: bool, status: nat)
    ensures var r := ReadRows(Frames(row, sequence, max) + tail, sequence, max, protocol41, status);
      if IsRowPacket(row) then
        r == More(row, ReadRows(tail, SequenceAfter(row, sequence, max), max, protocol41, status))
      else r.Done? ==> r.rows.rows == []
  {
    FramesRoundTrip(row, sequence, tail, max);
  }

  lemma MoreThan(rows: seq<Bytes>, r: RowsResult)
    requires rows != []
    ensures forall s, rest, q ::
      More(rows[0], r) == Done(Rows(rows, s, rest, q)) <==> r == Done(Rows(rows[1..], s, rest, q))
  {
    assert rows == [rows[0]] + rows[1..];
    if r.Done? { assert ([rows[0]] + r.rows.rows)[1..] == r.rows.rows; }
  }

  /** No text row with a column is ever taken for an end-of-file or error packet. */
  lemma TextRowIsRowPacket(cells: seq<Cell>)
    requires cells != []
    ensures IsRowPacket(TextRow(cells))
  {
    LenEncFirstByte(|FormatValue(cells[0])|);
  }

  /** Neither is a binary row. */
  lemma BinaryRowIsRowPacket(p: Bytes, fields: seq<B.Field>, row: seq<B.Value>)
    requires |fields| == |row| && B.IsBinaryRow(p, fields, row)
    ensures IsRowPacket(p)
  {
  }

  function TextRows(table: seq<seq<Cell>>): seq<Bytes> {
    seq(|table|, i requires 0 <= i < |table| => TextRow(table[i]))
  }

  /** End to end: a table of non-nil strings with at least one column survives framing,
      the stream and the row parser. */
  lemma TextTableRoundTrip(
    table: seq<seq<Cell>>, flags: nat, warnings: nat, sequence: Byte, suffix: Bytes, max: Limit, protocol41: bool,
    status: nat)
    requires flags < 0x1_0000
    requires forall i :: 0 <= i < |table| ==> table[i] != [] && forall j :: 0 <= j < |table[i]| ==> table[i][j].Str?
    ensures var r := ReadRows(
        Stream(TextRows(table), flags, warnings, sequence, max) + suffix, sequence, max, protocol41, status);
      && r.Done? && r.rows.rest == suffix && r.rows.status == StatusAfter(protocol41, flags, status)
      && |r.rows.rows| == |table|
      && forall i :: 0 <= i < |table| ==> TextCells(r.rows.rows[i], 0, |table[i]|) == Got(table[i])
  {
    forall i | 0 <= i < |table| ensures IsRowPacket(TextRows(table)[i]) {
      TextRowIsRowPacket(table[i]);
    }
    StreamRoundTrip(TextRows(table), flags, warnings, sequence, suffix, max, protocol41, status);
    forall i | 0 <= i < |table| ensures TextCells(TextRow(table[i]), 0, |table[i]|) == Got(table[i]) {
      TextRoundTrip(table[i]);
    }
  }

  function ServerRows(table: seq<seq<Cell>>): seq<Bytes> {
    seq(|table|, i requires 0 <= i < |table| => ServerRow(table[i]))
  }

  lemma ServerRowIsRowPacket(cells: seq<Cell>)
    requires cells != []
    ensures IsRowPacket(ServerRow(cells))
  {
    if cells[0].Str? { LenEncFirstByte(|cells[0].b|); }
  }

  /** The same for any table as a server writes it, nil cells included. */
  lemma ServerTableRoundTrip(
    table: seq<seq<Cell>>, flags: nat, warnings: nat, sequence: Byte, suffix: Bytes, max: Limit, protocol41: bool,
    status: nat)
    requires flags < 0x1_0000 && forall i :: 0 <= i < |table| ==> table[i] != []
    ensures var r := ReadRows(
        Stream(ServerRows(table), flags, warnings, sequence, max) + suffix, sequence, max, protocol41, status);
      && r.Done? && r.rows.rest == suffix && r.rows.status == StatusAfter(protocol41, flags, status)
      && |r.rows.rows| == |table|
      && forall i :: 0 <= i < |table| ==> TextCells(r.rows.rows[i], 0, |table[i]|) == Got(table[i])
  {
    forall i | 0 <= i < |table| ensures IsRowPacket(ServerRows(table)[i]) {
      ServerRowIsRowPacket(table[i]);
    }
    StreamRoundTrip(ServerRows(table), flags, warnings, sequence, suffix, max, protocol41, status);
    forall i | 0 <= i < |table| ensures TextCells(ServerRow(table[i]), 0, |table[i]|) == Got(table[i]) {
      ServerRoundTrip(table[i]);
    }
  }

  /** The same for binary rows whose values fit their columns. */
  lemma BinaryTableRoundTrip(
    fields: seq<B.Field>, table: seq<seq<B.Value>>, rows: seq<Bytes>, flags: nat, warnings: nat, sequence: Byte,
    suffix: Bytes, max: Limit, protocol41: bool, status: nat)
    requires flags < 0x1_0000 && |rows| == |table|
    requires forall i :: 0 <= i < |table| ==> |table[i]| == |fields|
    requires forall i :: 0 <= i < |table| ==>
      B.IsBinaryRow(rows[i], fields, table[i]) && B.FitsFrom(fields, table[i], 0)
    ensures var r := ReadRows(Stream(rows, flags, warnings, sequence, max) + suffix, sequence, max, protocol41, status);
      && r.Done? && r.rows.rest == suffix && r.rows.status == StatusAfter(protocol41, flags, status)
      && |r.rows.rows| == |table|
      && forall i :: 0 <= i < |table| ==> B.ParsedRow(r.rows.rows[i], fields) == Got(table[i])
  {
    forall i | 0 <= i < |rows| ensures IsRowPacket(rows[i]) && B.ParsedRow(rows[i], fields) == Got(table[i]) {
      BinaryRowIsRowPacket(rows[i], fields, table[i]);
      B.RowRoundTrip(rows[i], fields, table[i]);
    }
    StreamRoundTrip(rows, flags, warnings, sequence, suffix, max, protocol41, status);
  }
}
