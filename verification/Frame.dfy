/**
 The length-prefixed frame codec: version byte, little-endian 32-bit payload length, payload. The
 incremental reader keeps the bytes of the frame in flight across timeouts.
 */
module Frame {
  import opened Wrappers

  type Byte = b: nat | b < 256

  const FRAME_VERSION: Byte := 1
  const HEADER_LEN: nat := 5
  const LENGTH_LIMIT: nat := 0x1_0000_0000

  datatype FrameError =
    | TooShort(length: nat)
    | UnsupportedVersion(version: Byte)
    | PayloadTooLarge(length: nat)
    | Truncated(need: nat, have: nat)
    | Eof
    | Io

  type FrameResult = Result<seq<Byte>, FrameError>

  // ---------------------------------------------------------------------------
  // Encoding and decoding of complete buffers
  // ---------------------------------------------------------------------------

  function LittleEndian(n: nat): (bytes: seq<Byte>)
    ensures |bytes| == 4
  {
    [n % 0x100, n / 0x100 % 0x100, n / 0x1_0000 % 0x100, n / 0x100_0000 % 0x100]
  }

  function FromLittleEndian(bytes: seq<Byte>): (n: nat)
    requires |bytes| == 4
    ensures n < LENGTH_LIMIT
  {
    bytes[0] as int + 0x100 * bytes[1] as int + 0x1_0000 * bytes[2] as int + 0x100_0000 * bytes[3] as int
  }

  /** The payload length is cast to 32 bits, so longer lengths wrap around. */
  function Encode(payload: seq<Byte>): (frame: seq<Byte>)
    ensures |frame| == HEADER_LEN + |payload|
  {
    [FRAME_VERSION] + LittleEndian(|payload| % LENGTH_LIMIT) + payload
  }

  function DeclaredLength(header: seq<Byte>): (n: nat)
    requires |header| >= HEADER_LEN
    ensures n < LENGTH_LIMIT
  {
    FromLittleEndian(header[1..5])
  }

  function Parse(frame: seq<Byte>, maxPayload: nat): (result: FrameResult) {
    if frame == [] then Err(TooShort(0))
    else if frame[0] != FRAME_VERSION then Err(UnsupportedVersion(frame[0]))
    else if |frame| < HEADER_LEN then Err(TooShort(|frame|))
    else
      var len := DeclaredLength(frame);
      if len > maxPayload then Err(PayloadTooLarge(len))
      else if |frame| < HEADER_LEN + len then Err(Truncated(4 + len, |frame| - 1))
      else Ok(frame[5..5 + len])
  }

  lemma LittleEndianRoundTrip(n: nat)
    requires n < LENGTH_LIMIT
    ensures FromLittleEndian(LittleEndian(n)) == n
  {
    var b, c := n / 0x100, n / 0x1_0000;
    assert c == b / 0x100 && n / 0x100_0000 == c / 0x100;
    assert c / 0x100 < 0x100;
  }

  lemma EncodedHeader(payload: seq<Byte>, tail: seq<Byte>)
    ensures var frame := Encode(payload) + tail;
      frame[0] == FRAME_VERSION && DeclaredLength(frame) == |payload| % LENGTH_LIMIT
  {
    var n := |payload| % LENGTH_LIMIT;
    LittleEndianRoundTrip(n);
    assert (Encode(payload) + tail)[1..5] == LittleEndian(n);
  }

  /** Parsing gives an encoded payload back exactly when it fits the bound and a 32-bit length. */
  lemma ParseUndoesEncodeExactly(payload: seq<Byte>, tail: seq<Byte>, maxPayload: nat)
    ensures Parse(Encode(payload) + tail, maxPayload) == Ok(payload) <==> |payload| <= maxPayload && |payload| < LENGTH_LIMIT
  {
    EncodedHeader(payload, tail);
    var frame, len := Encode(payload) + tail, |payload| % LENGTH_LIMIT;
    if |payload| < LENGTH_LIMIT {
      assert len == |payload|;
      assert frame[5..5 + len] == payload;
    } else {
      assert len < |payload|;
    }
  }

  /** The length that the bytes 1 to 4 of a header declare, lowest byte first. */
  function Declares(header: seq<Byte>): (n: nat)
    requires |header| >= 5
  {
    header[1] as int + 0x100 * header[2] as int + 0x1_0000 * header[3] as int + 0x100_0000 * header[4] as int
  }

  /** The layout of a frame: version 1, four length bytes with the lowest first, the payload. */
  lemma FrameLayout(payload: seq<Byte>)
    ensures var frame := Encode(payload);
      && frame[0] == 1
      && Declares(frame) == |payload| % 0x1_0000_0000
      && frame[5..] == payload
  {
    LittleEndianRoundTrip(|payload| % LENGTH_LIMIT);
  }

  /**
   What parsing returns, decided by the length of the buffer, its first byte and the declared length:
   the version is judged before the length of the buffer, the bound before the payload.
   */
  lemma ParseOutcomes(frame: seq<Byte>, maxPayload: nat)
    ensures var result := Parse(frame, maxPayload);
      && (result == Err(TooShort(|frame|)) <==> frame == [] || (frame[0] == 1 && |frame| < 5))
      && (result.Err? && result.error.TooShort? ==> result.error.length == |frame|)
      && (forall v :: result == Err(UnsupportedVersion(v)) <==> frame != [] && v == frame[0] != 1)
      && (|frame| >= 5 && frame[0] == 1 ==>
            var n := Declares(frame);
            && (result == Err(PayloadTooLarge(n)) <==> n > maxPayload)
            && (result == Err(Truncated(n + 4, |frame| - 1)) <==> n <= maxPayload && |frame| < 5 + n)
            && (result == Ok(if 5 + n <= |frame| then frame[5..5 + n] else []) <==> n <= maxPayload && 5 + n <= |frame|))
  {
    if |frame| >= 5 {
      assert frame[1..5] == [frame[1], frame[2], frame[3], frame[4]];
    }
  }

  // ---------------------------------------------------------------------------
  // Streams
  // ---------------------------------------------------------------------------

  /** What the peer and the operating system do next: deliver bytes, interrupt, time out, hang up. */
  datatype StreamStep = Chunk(bytes: seq<Byte>) | Interrupted | Timeout | Hangup

  datatype ReadOutcome = Data(bytes: seq<Byte>) | WasInterrupted | WouldBlock | UnexpectedEof

  datatype FillOutcome = Done | Closed | Failed

  function Min(a: nat, b: nat): (n: nat) {
    if a < b then a else b
  }

  /** A stream with the first n bytes of its leading chunk read. */
  function AfterBytes(script: seq<StreamStep>, n: nat): (r: seq<StreamStep>)
    requires script != [] && script[0].Chunk? && n <= |script[0].bytes|
  {
    if n < |script[0].bytes| then [Chunk(script[0].bytes[n..])] + script[1..] else script[1..]
  }

  class ByteStream {
    var script: seq<StreamStep>

    constructor (script: seq<StreamStep>)
      ensures this.script == script
    {
      this.script := script;
    }

    /** One read call with room for `room` bytes; an exhausted script is a closed stream. */
    method Read(room: nat) returns (outcome: ReadOutcome)
      requires room > 0
      modifies this
      ensures old(script) == [] ==> outcome == Data([]) && script == []
      ensures old(script) != [] ==>
                match old(script)[0]
                case Chunk(bytes) =>
                  var n := Min(|bytes|, room);
                  outcome == Data(bytes[..n]) && script == AfterBytes(old(script), n)
                case Interrupted => outcome == WasInterrupted && script == old(script)[1..]
                case Timeout => outcome == WouldBlock && script == old(script)[1..]
                case Hangup => outcome == UnexpectedEof && script == old(script)[1..]
    {
      if script == [] {
        return Data([]);
      }
      match script[0] {
        case Chunk(bytes) =>
          var n := Min(|bytes|, room);
          script := AfterBytes(script, n);
          outcome := Data(bytes[..n]);
        case Interrupted => script, outcome := script[1..], WasInterrupted;
        case Timeout => script, outcome := script[1..], WouldBlock;
        case Hangup => script, outcome := script[1..], UnexpectedEof;
      }
    }
  }

  /** Filling a buffer: what is left of the stream, the bytes held, and how it ended. */
  datatype Filled = Filled(script: seq<StreamStep>, bytes: seq<Byte>, outcome: FillOutcome)

  function Fill(script: seq<StreamStep>, have: seq<Byte>, need: nat): (r: Filled)
    requires |have| <= need
    ensures have <= r.bytes && |r.bytes| <= need && (r.outcome == Done <==> |r.bytes| == need)
    decreases |script|, need - |have|
  {
    if |have| == need then Filled(script, have, Done)
    else if script == [] then Filled(script, have, Closed)
    else match script[0]
      case Chunk(bytes) =>
        var n := Min(|bytes|, need - |have|);
        if n == 0 then Filled(AfterBytes(script, 0), have, Closed)
        else Fill(AfterBytes(script, n), have + bytes[..n], need)
      case Interrupted => Fill(script[1..], have, need)
      case Timeout => Filled(script[1..], have, Failed)
      case Hangup => Filled(script[1..], have, Closed)
  }

  function FillError(outcome: FillOutcome): (r: FrameError) {
    if outcome == Failed then Io else Eof
  }

  /** The bytes a reader may hold between calls: an unfinished frame whose header, once complete, is accepted. */
  predicate InFlight(partial: seq<Byte>, maxPayload: nat) {
    |partial| >= HEADER_LEN ==>
      partial[0] == FRAME_VERSION && DeclaredLength(partial) <= maxPayload && |partial| < HEADER_LEN + DeclaredLength(partial)
  }

  /** What a call leaves behind and returns. */
  datatype Call = Call(script: seq<StreamStep>, partial: seq<Byte>, result: FrameResult)

  /** The rest of a call once the header is complete. */
  function ReadBody(script: seq<StreamStep>, held: seq<Byte>, maxPayload: nat): (call: Call)
    requires |held| == HEADER_LEN || (|held| > HEADER_LEN && InFlight(held, maxPayload))
    ensures InFlight(call.partial, maxPayload)
  {
    if held[0] != FRAME_VERSION then Call(script, [], Err(UnsupportedVersion(held[0])))
    else
      var len := DeclaredLength(held);
      if len > maxPayload then Call(script, [], Err(PayloadTooLarge(len)))
      else
        var frame := Fill(script, held, HEADER_LEN + len);
        assert frame.bytes[1..5] == held[1..5];
        if frame.outcome != Done then Call(frame.script, frame.bytes, Err(FillError(frame.outcome)))
        else Call(frame.script, [], Ok(frame.bytes[5..]))
  }

  /** One call of a reader that holds `partial` of the frame in flight. */
  function ReadFrame(script: seq<StreamStep>, partial: seq<Byte>, maxPayload: nat): (call: Call)
    requires InFlight(partial, maxPayload)
    ensures InFlight(call.partial, maxPayload)
  {
    var header := if |partial| < HEADER_LEN then Fill(script, partial, HEADER_LEN) else Filled(script, partial, Done);
    if header.outcome != Done then Call(header.script, header.bytes, Err(FillError(header.outcome)))
    else ReadBody(header.script, header.bytes, maxPayload)
  }

  // ---------------------------------------------------------------------------
  // The incremental reader
  // ---------------------------------------------------------------------------

  /** Fill buf from the stream, resuming at `start`. */
  method ReadInto(stream: ByteStream, buf: array<Byte>, start: nat) returns (filled: nat, outcome: FillOutcome)
    requires start <= buf.Length
    modifies stream, buf
    ensures start <= filled <= buf.Length
    ensures Filled(stream.script, buf[..filled], outcome) == Fill(old(stream.script), old(buf[..start]), buf.Length)
  {
    filled := start;
    while filled < buf.Length
      invariant start <= filled <= buf.Length
      invariant Fill(stream.script, buf[..filled], buf.Length) == Fill(old(stream.script), old(buf[..start]), buf.Length)
      decreases |stream.script|, buf.Length - filled
    {
      ghost var script, have := stream.script, buf[..filled];
      var read := stream.Read(buf.Length - filled);
      match read {
        case Data(bytes) =>
          if bytes == [] {
            return filled, Closed;
          }
          forall i | 0 <= i < |bytes| {
            buf[filled + i] := bytes[i];
          }
          assert buf[..filled + |bytes|] == have + bytes;
          filled := filled + |bytes|;
        case UnexpectedEof => return filled, Closed;
        case WasInterrupted =>
        case WouldBlock => return filled, Failed;
      }
    }
    outcome := Done;
  }

  /** Filling behind bytes that are already there. */
  lemma {:induction false} FillBehind(prefix: seq<Byte>, script: seq<StreamStep>, have: seq<Byte>, need: nat)
    requires |have| <= need
    ensures var inner, outer := Fill(script, have, need), Fill(script, prefix + have, |prefix| + need);
      outer == Filled(inner.script, prefix + inner.bytes, inner.outcome)
    decreases |script|, need - |have|
  {
    if |have| < need && script != [] {
      match script[0]
      case Chunk(bytes) =>
        var n := Min(|bytes|, need - |have|);
        if n != 0 {
          FillBehind(prefix, AfterBytes(script, n), have + bytes[..n], need);
          assert prefix + have + bytes[..n] == prefix + (have + bytes[..n]);
        }
      case Interrupted => FillBehind(prefix, script[1..], have, need);
      case _ =>
    }
  }

  lemma BehindHeader(header: seq<Byte>, bytes: seq<Byte>)
    requires |header| == HEADER_LEN
    ensures (header + bytes)[5..] == bytes && (header + bytes)[0] == header[0]
    ensures (header + bytes)[1..5] == header[1..5] && DeclaredLength(header + bytes) == DeclaredLength(header)
  {
    assert (header + bytes)[1..5] == header[1..5];
  }

  class FrameReader {
    const stream: ByteStream
    const maxPayload: nat
    const header: array<Byte>
    var headerFilled: nat
    var payload: array?<Byte>
    var payloadFilled: nat

    /** The bytes of the frame in flight. */
    function Partial(): (bytes: seq<Byte>)
      requires Shaped()
      reads this, header, payload
    {
      header[..headerFilled] + if payload == null then [] else payload[..payloadFilled]
    }

    predicate Shaped()
      reads this
    {
      && header.Length == HEADER_LEN && headerFilled <= HEADER_LEN
      && payload != header
      && (if payload == null then payloadFilled == 0 else payloadFilled <= payload.Length)
    }

    ghost predicate Valid()
      reads this, header, payload
    {
      && Shaped()
      && InFlight(Partial(), maxPayload)
      && (payload != null ==> headerFilled == HEADER_LEN && payload.Length == DeclaredLength(header[..]))
      && (payload == null ==> headerFilled < HEADER_LEN)
    }

    constructor (stream: ByteStream, maxPayload: nat)
      ensures Valid() && Partial() == []
      ensures this.stream == stream && this.maxPayload == maxPayload && fresh(header) && payload == null
    {
      this.stream, this.maxPayload := stream, maxPayload;
      header := new Byte[HEADER_LEN];
      headerFilled, payload, payloadFilled := 0, null, 0;
    }

    /** Read one frame, resuming the partial header or payload that an interrupted call left. */
    method ReadPayload() returns (result: FrameResult)
      requires Valid()
      modifies this, stream, header, payload
      ensures Valid()
      ensures payload == null || payload == old(payload) || fresh(payload)
      ensures Call(stream.script, Partial(), result) == ReadFrame(old(stream.script), old(Partial()), maxPayload)
    {
      if headerFilled < HEADER_LEN {
        assert Partial() == header[..headerFilled];
        var filled, outcome := ReadInto(stream, header, headerFilled);
        headerFilled := filled;
        assert Partial() == header[..headerFilled];
        if outcome != Done {
          return Err(FillError(outcome));
        }
      }
      result := ReadAcceptedPayload();
    }

    /** The second half of a call: check the header, then fill the payload. */
    method ReadAcceptedPayload() returns (result: FrameResult)
      requires Shaped() && headerFilled == HEADER_LEN
      requires payload != null ==> Valid()
      modifies this, stream, payload
      ensures Valid()
      ensures payload == null || payload == old(payload) || fresh(payload)
      ensures Call(stream.script, Partial(), result) == ReadBody(old(stream.script), old(Partial()), maxPayload)
    {
      assert header[..HEADER_LEN] == header[..];
      ghost var held := Partial();
      assert held[0] == header[0] && held[1..5] == header[..][1..5] == header[1..5];

      var version := header[0];
      if version != FRAME_VERSION {
        Reset();
        return Err(UnsupportedVersion(version));
      }
      var len := FromLittleEndian(header[1..5]);
      if len > maxPayload {
        Reset();
        return Err(PayloadTooLarge(len));
      }
      if payload == null {
        payload := new Byte[len];
      }
      assert Partial() == held;
      result := FillPayload();
    }

    /** Fill the payload behind an accepted header. */
    method FillPayload() returns (result: FrameResult)
      requires Shaped() && headerFilled == HEADER_LEN && payload != null
      requires header[0] == FRAME_VERSION && DeclaredLength(header[..]) == payload.Length <= maxPayload
      requires payload.Length > 0 ==> payloadFilled < payload.Length
      modifies this, stream, payload
      ensures Valid()
      ensures payload == null || payload == old(payload)
      ensures DeclaredLength(old(Partial())) == old(payload.Length)
      ensures var frame := Fill(old(stream.script), old(Partial()), HEADER_LEN + old(payload.Length));
        Call(stream.script, Partial(), result) ==
        if frame.outcome != Done then Call(frame.script, frame.bytes, Err(FillError(frame.outcome)))
        else Call(frame.script, [], Ok(frame.bytes[5..]))
    {
      ghost var headerBytes := header[..];
      assert header[..HEADER_LEN] == headerBytes;
      BehindHeader(headerBytes, payload[..payloadFilled]);
      assert Partial() == headerBytes + payload[..payloadFilled];
      FillBehind(headerBytes, stream.script, payload[..payloadFilled], payload.Length);
      var filled, outcome := ReadInto(stream, payload, payloadFilled);
      payloadFilled := filled;
      if outcome != Done {
        BehindHeader(headerBytes, payload[..filled]);
        assert Partial() == headerBytes + payload[..filled];
        return Err(FillError(outcome));
      }
      BehindHeader(headerBytes, payload[..]);
      assert payload[..filled] == payload[..];
      result := Ok(payload[..]);
      payload := null;
      headerFilled, payloadFilled := 0, 0;
    }

    /** Drop the frame in flight. */
    method Reset()
      requires Shaped()
      modifies this
      ensures Shaped() && Partial() == [] && headerFilled == 0 && payload == null
    {
      headerFilled, payload, payloadFilled := 0, null, 0;
    }
  }
}
