/** Packet framing: payloads cut into frames of at most `max` bytes and put together again. */
module Packets {
  import opened Encoding

  // The protocol's limit is 2^24 - 1; everything here but ReadIffWritten holds for any limit
  // below 2^24.
  type Limit = m: int | 0 < m < 0x100_0000 witness 1

  datatype ReadError = ShortHeader | BadSequence | ShortBody

  datatype Result<T> = Ok(value: T) | Err(error: ReadError)

  // ---------------------------------------------------------------- specification

  function Header(length: nat, sequence: Byte): (h: Bytes)
    requires length < 0x100_0000
    ensures |h| == 4
  {
    LittleEndian(length, 3) + [sequence]
  }

  function Next(sequence: Byte): Byte {
    (sequence + 1) % 256
  }

  /** A payload on the wire: full frames, then one shorter frame, which may be empty. */
  function Frames(data: Bytes, sequence: Byte, max: Limit): Bytes
    decreases |data|
  {
    if |data| < max then Header(|data|, sequence) + data
    else Header(max, sequence) + data[..max] + Frames(data[max..], Next(sequence), max)
  }

  function FrameCount(data: Bytes, max: Limit): nat
    decreases |data|
  {
    if |data| < max then 1 else 1 + FrameCount(data[max..], max)
  }

  /** One frame more than the limit fits into the payload: a last, shorter frame always follows. */
  lemma {:induction false} FrameCountBounds(data: Bytes, max: Limit)
    ensures (FrameCount(data, max) - 1) * max <= |data| < FrameCount(data, max) * max
    decreases |data|
  {
    if max <= |data| {
      FrameCountBounds(data[max..], max);
      var c := FrameCount(data[max..], max);
      assert (c - 1) * max + max == c * max && c * max + max == (c + 1) * max;
    }
  }

  /** The sequence number after a payload: the writer's count of frames, modulo 256. */
  function SequenceAfter(data: Bytes, sequence: Byte, max: Limit): Byte {
    (sequence + FrameCount(data, max)) % 256
  }

  // A packet read so far: payload, unread bytes, sequence number.
  datatype Packet = Packet(data: Bytes, rest: Bytes, sequence: Byte)

  /** One frame from the front of the stream. */
  function ReadFrame(input: Bytes, sequence: Byte): (r: Result<Packet>)
    ensures r.Ok? ==> |r.value.rest| < |input|
  {
    if |input| < 4 then Err(ShortHeader)
    else if input[3] != sequence then Err(BadSequence)
    else
      var length := FromLittleEndian(input[..3]);
      if |input| < 4 + length then Err(ShortBody)
      else Ok(Packet(input[4..4 + length], input[4 + length..], Next(sequence)))
  }

  function Prepend(data: Bytes, r: Result<Packet>): Result<Packet> {
    match r
    case Err(e) => Err(e)
    case Ok(p) => Ok(p.(data := data + p.data))
  }

  /** A whole payload: frames up to the first that is shorter than the limit. */
  function ReadPayload(input: Bytes, sequence: Byte, max: Limit): (r: Result<Packet>)
    ensures r.Ok? ==> |r.value.rest| < |input|
    decreases |input|
  {
    match ReadFrame(input, sequence)
    case Err(e) => Err(e)
    case Ok(p) => if |p.data| < max then Ok(p) else Prepend(p.data, ReadPayload(p.rest, p.sequence, max))
  }

  lemma ReadOneFrame(data: Bytes, sequence: Byte, suffix: Bytes)
    requires |data| < 0x100_0000
    ensures ReadFrame(Header(|data|, sequence) + data + suffix, sequence) == Ok(Packet(data, suffix, Next(sequence)))
  {
    var input := Header(|data|, sequence) + data + suffix;
    assert input[..3] == LittleEndian(|data|, 3);
    LittleEndianRoundTrip(|data|, 3);
    Powers();
    assert input[4..4 + |data|] == data && input[4 + |data|..] == suffix;
  }

  /** Round trip: every payload, empty and exact multiples of the limit included, is read
      back whole; the suffix stays unread and the sequence numbers agree. */
  lemma {:induction false} FramesRoundTrip(data: Bytes, sequence: Byte, suffix: Bytes, max: Limit)
    ensures ReadPayload(Frames(data, sequence, max) + suffix, sequence, max)
      == Ok(Packet(data, suffix, SequenceAfter(data, sequence, max)))
    decreases |data|
  {
    if |data| < max {
      ReadOneFrame(data, sequence, suffix);
    } else {
      var tail := Frames(data[max..], Next(sequence), max) + suffix;
      assert Frames(data, sequence, max) + suffix == Header(max, sequence) + data[..max] + tail;
      ReadOneFrame(data[..max], sequence, tail);
      FramesRoundTrip(data[max..], Next(sequence), suffix, max);
      assert data == data[..max] + data[max..];
      SequenceStep(data, sequence, max);
    }
  }

  lemma SequenceStep(data: Bytes, sequence: Byte, max: Limit)
    requires max <= |data|
    ensures SequenceAfter(data[max..], Next(sequence), max) == SequenceAfter(data, sequence, max)
  {
  }

  lemma FrameCutShort(input: Bytes, length: nat, sequence: Byte)
    requires length < 0x100_0000 && 4 <= |input| < 4 + length && input[..4] == Header(length, sequence)
    ensures ReadFrame(input, sequence).Err?
  {
    assert input[..3] == input[..4][..3] == LittleEndian(length, 3);
    LittleEndianRoundTrip(length, 3);
    Powers();
  }

  /** A cut-off stream never yields a packet. */
  lemma {:induction false} TruncatedFramesFail(data: Bytes, sequence: Byte, max: Limit, n: nat)
    requires n < |Frames(data, sequence, max)|
    ensures ReadPayload(Frames(data, sequence, max)[..n], sequence, max).Err?
    decreases |data|
  {
    var first := if |data| < max then data else data[..max];
    var all := Frames(data, sequence, max);
    var input := all[..n];
    if 4 <= n < 4 + |first| {
      FrameCutShort(input, |first|, sequence);
    } else if 4 <= n {
      var tail := Frames(data[max..], Next(sequence), max);
      assert input == Header(max, sequence) + first + tail[..n - 4 - max];
      ReadOneFrame(first, sequence, tail[..n - 4 - max]);
      TruncatedFramesFail(data[max..], Next(sequence), max, n - 4 - max);
    }
  }

  lemma FrameIsWritten(input: Bytes, sequence: Byte, p: Packet)
    requires ReadFrame(input, sequence) == Ok(p)
    ensures |p.data| < 0x100_0000 && input == Header(|p.data|, sequence) + p.data + p.rest
  {
    var length := FromLittleEndian(input[..3]);
    FromLittleEndianRoundTrip(input[..3]);
    Powers();
    assert input[..3] == LittleEndian(length, 3);
    assert input == input[..3] + [input[3]] + input[4..4 + length] + input[4 + length..];
  }

  /** With the protocol's own limit the reader takes nothing but what a writer sends: the bytes
      it accepts are exactly the frames of the payload it returns, numbered from `sequence`. */
  lemma {:induction false} ReadIffWritten(input: Bytes, sequence: Byte, max: Limit, p: Packet)
    requires max == 0xff_ffff
    ensures ReadPayload(input, sequence, max) == Ok(p) <==>
      input == Frames(p.data, sequence, max) + p.rest && p.sequence == SequenceAfter(p.data, sequence, max)
    decreases |input|
  {
    if input == Frames(p.data, sequence, max) + p.rest {
      FramesRoundTrip(p.data, sequence, p.rest, max);
    }
    if ReadPayload(input, sequence, max) == Ok(p) {
      var frame := ReadFrame(input, sequence).value;
      FrameIsWritten(input, sequence, frame);
      if |frame.data| == max {
        var q := ReadPayload(frame.rest, frame.sequence, max).value;
        ReadIffWritten(frame.rest, frame.sequence, max, q);
        assert p.data[..max] == frame.data && p.data[max..] == q.data;
        SequenceStep(p.data, sequence, max);
      }
    }
  }

  // ------------------------------------------------------------------- connection

  datatype Ephemeral = Unused | Write | Read

  class Conn {
    const max: Limit
    var input: Bytes
    var output: Bytes
    var sequence: Byte
    var policy: Ephemeral
    var buffer: Bytes

    constructor (max: Limit, input: Bytes, sequence: Byte)
      ensures this.max == max && this.input == input && this.sequence == sequence
      ensures output == [] && policy == Unused
    {
      this.max := max;
      this.input := input;
      this.output := [];
      this.sequence := sequence;
      this.policy := Unused;
      this.buffer := [];
    }

    method WritePacket(data: Bytes)
      modifies this`output, this`sequence
      ensures output == old(output) + Frames(data, old(sequence), max)
      ensures sequence == SequenceAfter(data, old(sequence), max)
    {
      var index, length := 0, |data|;
      ghost var goal, last := output + Frames(data, sequence, max), SequenceAfter(data, sequence, max);
      assert data[0..] == data;
      while true
        invariant 0 <= index <= |data| && index + length == |data|
        invariant goal == output + Frames(data[index..], sequence, max)
        invariant last == SequenceAfter(data[index..], sequence, max)
        decreases length
      {
        var packetLength := if length > max then max else length;
        ghost var before, chunk, seq0 := output, data[index..], sequence;
        output := output + Header(packetLength, sequence);
        output := output + data[index..index + packetLength];
        sequence := Next(sequence);
        length := length - packetLength;
        WrittenChunk(before, chunk, packetLength, seq0, max);
        assert data[index..index + packetLength] == chunk[..packetLength];
        if length == 0 {
          if packetLength == max {
            output := output + Header(0, sequence);
            sequence := Next(sequence);
          }
          return;
        }
        assert chunk[packetLength..] == data[index + packetLength..];
        index := index + packetLength;
      }
    }

    method ReadHeader() returns (length: Result<nat>)
      modifies this`input, this`sequence
      ensures length == HeaderOf(old(input), old(sequence))
      ensures length.Ok? ==> input == old(input)[4..] && sequence == Next(old(sequence))
      ensures length.Err? ==> sequence == old(sequence)
    {
      if |input| < 4 {
        return Err(ShortHeader);
      }
      var header := input[..4];
      assert header[..3] == input[..3];
      input := input[4..];
      if header[3] != sequence {
        return Err(BadSequence);
      }
      sequence := Next(sequence);
      return Ok(FromLittleEndian(header[..3]));
    }

    method ReadOnePacket() returns (data: Result<Bytes>)
      modifies this`input, this`sequence
      ensures data == DataOf(ReadFrame(old(input), old(sequence)))
      ensures data.Ok? ==> Packet(data.value, input, sequence) == ReadFrame(old(input), old(sequence)).value
    {
      var length := ReadHeader();
      if length.Err? {
        return Err(length.error);
      }
      assert old(input)[4..4] == [];
      if length.value == 0 {
        return Ok([]);
      }
      if |input| < length.value {
        return Err(ShortBody);
      }
      assert input[..length.value] == old(input)[4..4 + length.value];
      data := Ok(input[..length.value]);
      input := input[length.value..];
    }

    // The loop shared by both readers: frames until one is shorter than the limit.
    method ReadRemaining(start: Bytes) returns (data: Result<Bytes>)
      modifies this`input, this`sequence
      ensures data == DataOf(Prepend(start, ReadPayload(old(input), old(sequence), max)))
      ensures data.Ok? ==>
        Packet(data.value, input, sequence) == Prepend(start, ReadPayload(old(input), old(sequence), max)).value
    {
      var whole := start;
      while true
        invariant Prepend(start, ReadPayload(old(input), old(sequence), max))
          == Prepend(whole, ReadPayload(input, sequence, max))
        decreases |input|
      {
        ghost var before, seq0, all := input, sequence, whole;
        var next := ReadOnePacket();
        if next.Err? {
          return Err(next.error);
        }
        PrependTwice(all, next.value, ReadPayload(input, sequence, max));
        if |next.value| == 0 {
          assert whole + next.value == whole;
          return Ok(whole);
        }
        whole := whole + next.value;
        if |next.value| < max {
          return Ok(whole);
        }
      }
    }

    method ReadPacket() returns (data: Result<Bytes>)
      modifies this`input, this`sequence
      ensures data == DataOf(ReadPayload(old(input), old(sequence), max))
      ensures data.Ok? ==> Packet(data.value, input, sequence) == ReadPayload(old(input), old(sequence), max).value
    {
      data := ReadOnePacket();
      if data.Err? || |data.value| < max {
        return;
      }
      data := ReadRemaining(data.value);
    }

    /** The pooled-buffer reader returns what ReadPacket returns. */
    method ReadEphemeralPacket() returns (data: Result<Bytes>)
      requires policy == Unused
      modifies this`input, this`sequence, this`policy, this`buffer
      ensures data == DataOf(ReadPayload(old(input), old(sequence), max))
      ensures data.Ok? ==> Packet(data.value, input, sequence) == ReadPayload(old(input), old(sequence), max).value
      ensures policy == (if HeaderOf(old(input), old(sequence)).Ok? then Read else Unused)
    {
      var length := ReadHeader();
      if length.Err? {
        return Err(length.error);
      }
      policy := Read;
      assert old(input)[4..4] == [];
      if length.value == 0 {
        return Ok([]);
      }
      if |input| < length.value {
        return Err(ShortBody);
      }
      assert input[..length.value] == old(input)[4..4 + length.value];
      if length.value < max {
        buffer := input[..length.value];
        input := input[length.value..];
        return Ok(buffer);
      }
      var first := input[..length.value];
      input := input[length.value..];
      data := ReadRemaining(first);
    }

    // StartEphemeralPacket, the caller's stores into the buffer, WriteEphemeralPacket.
    method WriteEphemeral(data: Bytes)
      requires policy == Unused
      modifies this`output, this`sequence, this`policy, this`buffer
      ensures output == old(output) + Frames(data, old(sequence), max)
      ensures sequence == SequenceAfter(data, old(sequence), max)
      ensures policy == Unused && buffer == []
    {
      policy := Write;
      buffer := data;
      WritePacket(buffer);
      buffer := [];
      policy := Unused;
    }

    method WriteEOFPacket(flags: nat, warnings: nat)
      requires policy == Unused && flags < 0x1_0000 && warnings < 0x1_0000
      modifies this`output, this`sequence, this`policy, this`buffer
      ensures output == old(output) + Frames(EOFPacket(flags, warnings), old(sequence), max)
      ensures sequence == SequenceAfter(EOFPacket(flags, warnings), old(sequence), max)
      ensures policy == Unused
    {
      var data := new Byte[5];
      data[0] := EOF_HEADER;
      WriteTwo(data, 1, warnings);
      WriteTwo(data, 3, flags);
      assert data[..] == EOFPacket(flags, warnings);
      WriteEphemeral(data[..]);
    }
  }

  // ---------------------------------------------------------------------- helpers

  const EOF_HEADER: Byte := 0xfe
  const ERR_HEADER: Byte := 0xff

  function EOFPacket(flags: nat, warnings: nat): (p: Bytes)
    ensures |p| == 5
  {
    [EOF_HEADER] + LittleEndian(warnings, 2) + LittleEndian(flags, 2)
  }

  /** The end-of-file packet of protocol 4.1, byte by byte. */
  lemma EOFBytes(flags: nat, warnings: nat)
    ensures EOFPacket(flags, warnings)
      == [0xfe, warnings % 256, warnings / 256 % 256, flags % 256, flags / 256 % 256]
  {
    UnrollTwo(warnings, 0);
    UnrollTwo(flags, 0);
  }

  function HeaderOf(input: Bytes, sequence: Byte): Result<nat> {
    if |input| < 4 then Err(ShortHeader)
    else if input[3] != sequence then Err(BadSequence)
    else Ok(FromLittleEndian(input[..3]))
  }

  function DataOf(r: Result<Packet>): Result<Bytes> {
    match r
    case Err(e) => Err(e)
    case Ok(p) => Ok(p.data)
  }

  lemma PrependTwice(a: Bytes, b: Bytes, r: Result<Packet>)
    ensures Prepend(a, Prepend(b, r)) == Prepend(a + b, r)
  {
    if r.Ok? { assert a + (b + r.value.data) == a + b + r.value.data; }
  }

  // One turn of the writer's loop, seen from the specification.
  lemma WrittenChunk(before: Bytes, chunk: Bytes, n: nat, sequence: Byte, max: Limit)
    requires n == if |chunk| > max then max else |chunk|
    ensures var sent, all := before + Header(n, sequence) + chunk[..n], before + Frames(chunk, sequence, max);
      && (n < max ==> all == sent)
      && (n == max ==> all == sent + Frames(chunk[n..], Next(sequence), max))
    ensures n == max ==> SequenceAfter(chunk[n..], Next(sequence), max) == SequenceAfter(chunk, sequence, max)
    ensures n == max == |chunk| ==> Frames(chunk[n..], Next(sequence), max) == Header(0, Next(sequence))
  {
    var h, c := Header(n, sequence), chunk[..n];
    if n < max {
      assert c == chunk;
      assert before + (h + c) == before + h + c;
    } else {
      SequenceStep(chunk, sequence, max);
      var t := Frames(chunk[n..], Next(sequence), max);
      assert before + (h + c + t) == before + h + c + t;
      if |chunk| == n { assert chunk[n..] == []; }
    }
  }
}
