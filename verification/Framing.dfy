// IPCProtocolHandler framing and the per-connection accumulation loop of IPCManager.
module Framing {
  import opened Collections

  type Byte = x: int | 0 <= x < 256

  const HEADER: nat := 4

  datatype FrameError = Oversized | Malformed | UnsupportedVersion

  /** JSON text and schema: serialize is JSON.stringify in UTF-8, parse is JSON.parse and the schema. */
  datatype Codec<!Msg> = Codec(
    serialize: Msg -> seq<Byte>,
    parse: seq<Byte> -> Option<Msg>,
    versionAllowed: Msg -> bool)

  datatype Parsing<Msg> = Parsed(messages: seq<Msg>, remainder: seq<Byte>) | Rejected(error: FrameError)

  // ---- Frames ----

  /** A 32-bit big-endian length. */
  function Header(n: nat): (h: seq<Byte>)
    requires n < 0x1_0000_0000
    ensures |h| == HEADER
  {
    [n / 0x100_0000, n / 0x1_0000 % 256, n / 256 % 256, n % 256]
  }

  function ReadHeader(b: seq<Byte>): nat
    requires |b| >= HEADER
  {
    b[0] as int * 0x100_0000 + b[1] as int * 0x1_0000 + b[2] as int * 256 + b[3] as int
  }

  lemma HeaderReadsBack(n: nat, rest: seq<Byte>)
    requires n < 0x1_0000_0000
    ensures ReadHeader(Header(n) + rest) == n
  {
    var hi := n / 256;
    assert n == hi * 256 + n % 256;
    assert n / 0x1_0000 == hi / 256 && hi == hi / 256 * 256 + hi % 256;
    var top := hi / 256;
    assert n / 0x100_0000 == top / 256 && top == top / 256 * 256 + top % 256;
  }

  /** The most significant byte comes first. */
  lemma HeaderIsBigEndian(a: Byte, b: Byte, c: Byte, d: Byte, rest: seq<Byte>)
    ensures ReadHeader([a, b, c, d] + rest) == ((a * 256 + b) * 256 + c) * 256 + d
  {
  }

  function Encode<Msg>(codec: Codec<Msg>, m: Msg): seq<Byte>
    requires |codec.serialize(m)| < 0x1_0000_0000
  {
    Header(|codec.serialize(m)|) + codec.serialize(m)
  }

  /** What one complete frame payload yields. */
  function Decode<Msg>(codec: Codec<Msg>, payload: seq<Byte>): Parsing<Msg> {
    var m := codec.parse(payload);
    if m.None? then Rejected(Malformed)
    else if !codec.versionAllowed(m.value) then Rejected(UnsupportedVersion)
    else Parsed([m.value], [])
  }

  function After<Msg>(first: seq<Msg>, then_: Parsing<Msg>): Parsing<Msg> {
    if then_.Rejected? then then_ else Parsed(first + then_.messages, then_.remainder)
  }

  /** All complete frames at the front of the buffer, and what is left; the first bad frame rejects everything. */
  function Parse<Msg>(codec: Codec<Msg>, buffer: seq<Byte>, max: nat): Parsing<Msg>
    decreases |buffer|
  {
    if |buffer| < HEADER then Parsed([], buffer)
    else
      var n := ReadHeader(buffer);
      if n > max then Rejected(Oversized)
      else if HEADER + n > |buffer| then Parsed([], buffer)
      else
        var frame := Decode(codec, buffer[HEADER..HEADER + n]);
        if frame.Rejected? then frame
        else After(frame.messages, Parse(codec, buffer[HEADER + n..], max))
  }

  /** The loop of parseFrames, advancing an offset. */
  method ParseFrames<Msg>(codec: Codec<Msg>, buffer: seq<Byte>, max: nat) returns (r: Parsing<Msg>)
    ensures r == Parse(codec, buffer, max)
  {
    var messages: seq<Msg> := [];
    var offset := 0;
    ParsedSoFar(codec, buffer, max);
    while offset + HEADER <= |buffer|
      invariant Reaches(codec, buffer, max, messages, offset)
      decreases |buffer| - offset
    {
      var frameLength := ReadHeader(buffer[offset..]);
      if frameLength > max {
        ParseStops(codec, buffer, max, messages, offset);
        return Rejected(Oversized);
      }
      if offset + HEADER + frameLength > |buffer| {
        break;
      }
      var payload := buffer[offset + HEADER..offset + HEADER + frameLength];
      var m := codec.parse(payload);
      if m.None? {
        assert Decode(codec, payload) == Rejected(Malformed);
        ParseStops(codec, buffer, max, messages, offset);
        return Rejected(Malformed);
      }
      if !codec.versionAllowed(m.value) {
        assert Decode(codec, payload) == Rejected(UnsupportedVersion);
        ParseStops(codec, buffer, max, messages, offset);
        return Rejected(UnsupportedVersion);
      }
      assert Decode(codec, payload) == Parsed([m.value], []);
      ParseGoesOn(codec, buffer, max, messages, offset, m.value);
      messages := messages + [m.value];
      offset := offset + HEADER + frameLength;
    }
    ParseStops(codec, buffer, max, messages, offset);
    r := Parsed(messages, buffer[offset..]);
  }

  /** What is parsed of the buffer so far, with what parsing the rest of it adds. */
  ghost predicate Reaches<Msg>(codec: Codec<Msg>, buffer: seq<Byte>, max: nat, messages: seq<Msg>, offset: nat) {
    offset <= |buffer| && Parse(codec, buffer, max) == After(messages, Parse(codec, buffer[offset..], max))
  }

  lemma ParsedSoFar<Msg>(codec: Codec<Msg>, buffer: seq<Byte>, max: nat)
    ensures Reaches(codec, buffer, max, [], 0)
  {
    assert buffer[0..] == buffer;
  }

  /** What the frame at an offset says about the whole buffer when parsing ends there. */
  lemma {:induction false} ParseStops<Msg>(codec: Codec<Msg>, buffer: seq<Byte>, max: nat, messages: seq<Msg>, offset: nat)
    requires Reaches(codec, buffer, max, messages, offset)
    ensures offset + HEADER > |buffer| ==> Parse(codec, buffer, max) == Parsed(messages, buffer[offset..])
    ensures offset + HEADER <= |buffer| ==>
      var n, p := ReadHeader(buffer[offset..]), Parse(codec, buffer, max);
      && (n > max ==> p == Rejected(Oversized))
      && (n <= max && offset + HEADER + n > |buffer| ==> p == Parsed(messages, buffer[offset..]))
      && (n <= max && offset + HEADER + n <= |buffer| ==>
            var frame := Decode(codec, buffer[offset + HEADER..offset + HEADER + n]);
            frame.Rejected? ==> p == frame)
  {
    AfterDone(messages, buffer[offset..]);
    if offset + HEADER <= |buffer| {
      var n := ReadHeader(buffer[offset..]);
      if offset + HEADER + n <= |buffer| {
        assert buffer[offset..][HEADER..HEADER + n] == buffer[offset + HEADER..offset + HEADER + n];
      }
    }
  }

  /** Where it goes on behind a good frame. */
  lemma {:induction false} ParseGoesOn<Msg>(codec: Codec<Msg>, buffer: seq<Byte>, max: nat, messages: seq<Msg>, offset: nat, m: Msg)
    requires Reaches(codec, buffer, max, messages, offset)
    requires offset + HEADER <= |buffer|
    requires var n := ReadHeader(buffer[offset..]);
      n <= max && offset + HEADER + n <= |buffer| && Decode(codec, buffer[offset + HEADER..offset + HEADER + n]) == Parsed([m], [])
    ensures Reaches(codec, buffer, max, messages + [m], offset + HEADER + ReadHeader(buffer[offset..]))
  {
    var n := ReadHeader(buffer[offset..]);
    assert buffer[offset..][HEADER..HEADER + n] == buffer[offset + HEADER..offset + HEADER + n];
    assert buffer[offset..][HEADER + n..] == buffer[offset + HEADER + n..];
    AfterAppend(messages, m, Parse(codec, buffer[offset + HEADER + n..], max));
  }

  lemma AfterDone<Msg>(ms: seq<Msg>, rest: seq<Byte>)
    ensures After(ms, Parsed([], rest)) == Parsed(ms, rest)
  {
  }

  lemma {:induction false} AfterAppend<Msg>(ms: seq<Msg>, m: Msg, p: Parsing<Msg>)
    ensures After(ms, After([m], p)) == After(ms + [m], p)
  {
    if p.Parsed? {
      assert ms + ([m] + p.messages) == ms + [m] + p.messages;
    }
  }

  // ---- Chunk independence ----

  /** What is carried over never holds a complete frame, so it is shorter than the largest frame. */
  lemma RemainderIsShort<Msg>(codec: Codec<Msg>, buffer: seq<Byte>, max: nat)
    ensures var p := Parse(codec, buffer, max); p.Parsed? ==> |p.remainder| <= max + 3
    decreases |buffer|
  {
    if |buffer| >= HEADER && ReadHeader(buffer) <= max && HEADER + ReadHeader(buffer) <= |buffer| {
      RemainderIsShort(codec, buffer[HEADER + ReadHeader(buffer)..], max);
    }
  }

  /** Parsing a buffer in two pieces, carrying the remainder, is parsing it in one piece. */
  lemma {:induction false} ParseInTwo<Msg>(codec: Codec<Msg>, a: seq<Byte>, b: seq<Byte>, max: nat)
    ensures var p := Parse(codec, a, max);
      Parse(codec, a + b, max) == if p.Rejected? then p else After(p.messages, Parse(codec, p.remainder + b, max))
    decreases |a|
  {
    if |a| < HEADER || ReadHeader(a) > max || HEADER + ReadHeader(a) > |a| {
      if |a| >= HEADER {
        assert ReadHeader(a + b) == ReadHeader(a);
      }
      AfterNothing(Parse(codec, a + b, max));
    } else {
      var n := ReadHeader(a);
      assert ReadHeader(a + b) == n;
      assert (a + b)[HEADER..HEADER + n] == a[HEADER..HEADER + n];
      assert (a + b)[HEADER + n..] == a[HEADER + n..] + b;
      ParseInTwo(codec, a[HEADER + n..], b, max);
      var frame, rest := Decode(codec, a[HEADER..HEADER + n]), Parse(codec, a[HEADER + n..], max);
      if frame.Parsed? && rest.Parsed? {
        AfterAppend2(frame.messages, rest.messages, Parse(codec, rest.remainder + b, max));
      }
    }
  }

  lemma AfterNothing<Msg>(p: Parsing<Msg>)
    ensures After([], p) == p
  {
    if p.Parsed? {
      assert [] + p.messages == p.messages;
    }
  }

  lemma AfterAppend2<Msg>(xs: seq<Msg>, ys: seq<Msg>, p: Parsing<Msg>)
    ensures After(xs, After(ys, p)) == After(xs + ys, p)
  {
    if p.Parsed? {
      assert xs + (ys + p.messages) == xs + ys + p.messages;
    }
  }

  // ---- The connection ----

  datatype Connection<Msg> = Open(buffer: seq<Byte>, delivered: seq<Msg>) | Closed(delivered: seq<Msg>)

  /** One data event: the accumulation guard, then parsing with the carried remainder. */
  function Receive<Msg>(codec: Codec<Msg>, max: nat, c: Connection<Msg>, chunk: seq<Byte>): Connection<Msg> {
    if c.Closed? then c
    else if |c.buffer| + |chunk| > max * 2 then Closed(c.delivered)
    else
      var p := Parse(codec, c.buffer + chunk, max);
      if p.Rejected? then Closed(c.delivered) else Open(p.remainder, c.delivered + p.messages)
  }

  function ReceiveAll<Msg>(codec: Codec<Msg>, max: nat, chunks: seq<seq<Byte>>): Connection<Msg> {
    if chunks == [] then Open([], [])
    else Receive(codec, max, ReceiveAll(codec, max, chunks[..|chunks| - 1]), Last(chunks))
  }

  ghost predicate SmallChunks(chunks: seq<seq<Byte>>, max: nat) {
    forall i :: 0 <= i < |chunks| ==> |chunks[i]| + 3 <= max
  }

  /**
   * For every byte stream and every split into chunks of at most max - 3 bytes: the guard never
   * trips, a stream that parses as a whole is delivered exactly, and one that does not closes
   * the connection.
   */
  lemma {:induction false} ChunkIndependence<Msg>(codec: Codec<Msg>, max: nat, chunks: seq<seq<Byte>>)
    requires SmallChunks(chunks, max)
    ensures var p := Parse(codec, Flatten(chunks), max);
      && (p.Parsed? ==> ReceiveAll(codec, max, chunks) == Open(p.remainder, p.messages))
      && (p.Rejected? ==> ReceiveAll(codec, max, chunks).Closed?)
  {
    if chunks != [] {
      var init, chunk := chunks[..|chunks| - 1], Last(chunks);
      ChunkIndependence(codec, max, init);
      ParseInTwo(codec, Flatten(init), chunk, max);
      RemainderIsShort(codec, Flatten(init), max);
    }
  }

  // ---- Round trip ----

  ghost predicate WellFormed<Msg>(codec: Codec<Msg>, m: Msg, max: nat) {
    && |codec.serialize(m)| <= max
    && codec.parse(codec.serialize(m)) == Some(m)
    && codec.versionAllowed(m)
  }

  ghost predicate AllWellFormed<Msg>(codec: Codec<Msg>, ms: seq<Msg>, max: nat) {
    ms == [] || (WellFormed(codec, ms[0], max) && AllWellFormed(codec, ms[1..], max))
  }

  ghost function EncodeAll<Msg>(codec: Codec<Msg>, ms: seq<Msg>, max: nat): seq<Byte>
    requires max < 0x1_0000_0000 && AllWellFormed(codec, ms, max)
  {
    if ms == [] then [] else Encode(codec, ms[0]) + EncodeAll(codec, ms[1..], max)
  }

  lemma {:induction false} EncodedParses<Msg>(codec: Codec<Msg>, ms: seq<Msg>, max: nat)
    requires max < 0x1_0000_0000 && AllWellFormed(codec, ms, max)
    ensures Parse(codec, EncodeAll(codec, ms, max), max) == Parsed(ms, [])
  {
    if ms != [] {
      var payload, rest := codec.serialize(ms[0]), EncodeAll(codec, ms[1..], max);
      var stream := EncodeAll(codec, ms, max);
      assert stream == Header(|payload|) + (payload + rest);
      HeaderReadsBack(|payload|, payload + rest);
      assert stream[HEADER..HEADER + |payload|] == payload;
      assert stream[HEADER + |payload|..] == rest;
      EncodedParses(codec, ms[1..], max);
      assert [ms[0]] + ms[1..] == ms;
    }
  }

  /** Well-formed messages arrive exactly, however their bytes are cut into small chunks. */
  lemma FramingRoundTrip<Msg>(codec: Codec<Msg>, max: nat, ms: seq<Msg>, chunks: seq<seq<Byte>>)
    requires max < 0x1_0000_0000 && AllWellFormed(codec, ms, max)
    requires SmallChunks(chunks, max) && Flatten(chunks) == EncodeAll(codec, ms, max)
    ensures ReceiveAll(codec, max, chunks) == Open([], ms)
  {
    EncodedParses(codec, ms, max);
    ChunkIndependence(codec, max, chunks);
  }

  /** The bound on chunks is tight: a legal stream cut into chunks of at most max - 2 bytes can trip the guard. */
  lemma GuardIsTight<Msg>(codec: Codec<Msg>, max: nat, m: Msg, stream: seq<Byte>)
    requires 7 <= max < 0x1_0000_0000 && |codec.serialize(m)| == max
    requires stream == Encode(codec, m) + Encode(codec, m)
    ensures |stream| >= 2 * max + 1
    ensures ReceiveAll(codec, max, [stream[..max - 2], stream[max - 2..max + 3], stream[max + 3..2 * max + 1]]).Closed?
  {
    var a, b, c := stream[..max - 2], stream[max - 2..max + 3], stream[max + 3..2 * max + 1];
    HeaderReadsBack(max, codec.serialize(m) + Encode(codec, m));
    assert stream == Header(max) + (codec.serialize(m) + Encode(codec, m));
    NoFrameYet(codec, max, stream, max - 2);
    NoFrameYet(codec, max, stream, max + 3);
    ThreeChunks(codec, max, a, b, c);
    var none: seq<Byte> := [];
    assert none + a == stream[..max - 2] && stream[..max - 2] + b == stream[..max + 3];
  }

  lemma ThreeChunks<Msg>(codec: Codec<Msg>, max: nat, a: seq<Byte>, b: seq<Byte>, c: seq<Byte>)
    ensures ReceiveAll(codec, max, [a, b, c])
         == Receive(codec, max, Receive(codec, max, Receive(codec, max, Open([], []), a), b), c)
  {
    var none: seq<seq<Byte>> := [];
    assert [a, b, c][..2] == [a, b] && [a, b][..1] == [a] && [a][..0] == none;
    assert ReceiveAll(codec, max, none) == Open([], []);
    assert ReceiveAll(codec, max, [a]) == Receive(codec, max, Open([], []), a);
    assert ReceiveAll(codec, max, [a, b]) == Receive(codec, max, ReceiveAll(codec, max, [a]), b);
  }

  lemma NoFrameYet<Msg>(codec: Codec<Msg>, max: nat, stream: seq<Byte>, k: nat)
    requires HEADER <= k <= |stream| && ReadHeader(stream) == max && k < HEADER + max
    ensures Parse(codec, stream[..k], max) == Parsed([], stream[..k])
  {
    assert ReadHeader(stream[..k]) == max;
  }

  class IpcConnection<!Msg> {
    const codec: Codec<Msg>
    const maxFrameSizeBytes: nat
    var bufferState: seq<Byte>
    var closed: bool
    ghost var handled: seq<Msg>

    constructor (codec: Codec<Msg>, max: nat)
      ensures this.codec == codec && maxFrameSizeBytes == max && View() == Open([], [])
    {
      this.codec := codec;
      maxFrameSizeBytes := max;
      bufferState, closed, handled := [], false, [];
    }

    ghost function View(): Connection<Msg>
      reads this
    {
      if closed then Closed(handled) else Open(bufferState, handled)
    }

    /** The data handler; the messages go to handleRequest in order. */
    method OnData(chunk: seq<Byte>) returns (messages: seq<Msg>)
      modifies this
      ensures View() == Receive(codec, maxFrameSizeBytes, old(View()), chunk)
      ensures handled == old(handled) + messages
    {
      messages := [];
      if closed {
        return;
      }
      if |bufferState| + |chunk| > maxFrameSizeBytes * 2 {
        closed := true;
        return;
      }
      bufferState := bufferState + chunk;
      var p := ParseFrames(codec, bufferState, maxFrameSizeBytes);
      match p {
        case Rejected(_) =>
          closed := true;
        case Parsed(ms, remainder) =>
          bufferState := remainder;
          messages := ms;
          handled := handled + ms;
      }
    }
  }
}
