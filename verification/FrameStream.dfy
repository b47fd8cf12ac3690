/**
 The incremental reader against decoding the whole stream at once: however the bytes are chunked
 and wherever interrupts and timeouts fall, the same frames come out in the same order.
 */
module FrameStream {
  import opened Wrappers
  import opened Frame

  // ---------------------------------------------------------------------------
  // The stream as plain bytes, and its decoding
  // ---------------------------------------------------------------------------

  predicate Ends(step: StreamStep) {
    step == Hangup || step == Chunk([])
  }

  /** The bytes that arrive before the stream ends. */
  function BytesOf(script: seq<StreamStep>): (bytes: seq<Byte>) {
    if script == [] || Ends(script[0]) then []
    else (if script[0].Chunk? then script[0].bytes else []) + BytesOf(script[1..])
  }

  /** The timeouts before the stream ends. */
  function TimeoutsIn(script: seq<StreamStep>): (n: nat) {
    if script == [] || Ends(script[0]) then 0
    else (if script[0] == Timeout then 1 else 0) + TimeoutsIn(script[1..])
  }

  /** Decoding whole bytes: a rejected header is five bytes long; an unfinished frame at the end is dropped. */
  function DecodeAll(bytes: seq<Byte>, maxPayload: nat): (results: seq<FrameResult>) {
    if |bytes| < HEADER_LEN then []
    else if bytes[0] != FRAME_VERSION then [Err(UnsupportedVersion(bytes[0]))] + DecodeAll(bytes[HEADER_LEN..], maxPayload)
    else
      var len := DeclaredLength(bytes);
      if len > maxPayload then [Err(PayloadTooLarge(len))] + DecodeAll(bytes[HEADER_LEN..], maxPayload)
      else if |bytes| < HEADER_LEN + len then []
      else [Ok(bytes[HEADER_LEN..HEADER_LEN + len])] + DecodeAll(bytes[HEADER_LEN + len..], maxPayload)
  }

  // ---------------------------------------------------------------------------
  // Calling the reader until the stream ends
  // ---------------------------------------------------------------------------

  function Size(script: seq<StreamStep>): (n: nat) {
    if script == [] then 0
    else 1 + (if script[0].Chunk? then |script[0].bytes| else 0) + Size(script[1..])
  }

  /** The results of all calls up to the first Eof. */
  function AllCalls(script: seq<StreamStep>, partial: seq<Byte>, maxPayload: nat): (results: seq<FrameResult>)
    requires InFlight(partial, maxPayload)
    decreases Size(script)
  {
    var call := ReadFrame(script, partial, maxPayload);
    if call.result == Err(Eof) then [call.result]
    else
      CallsMakeProgress(script, partial, maxPayload);
      [call.result] + AllCalls(call.script, call.partial, maxPayload)
  }

  function WithoutIo(results: seq<FrameResult>): (r: seq<FrameResult>) {
    if results == [] then []
    else (if results[0] == Err(Io) then [] else [results[0]]) + WithoutIo(results[1..])
  }

  function IoCount(results: seq<FrameResult>): (n: nat) {
    if results == [] then 0 else (if results[0] == Err(Io) then 1 else 0) + IoCount(results[1..])
  }

  // ---------------------------------------------------------------------------
  // Conservation of bytes
  // ---------------------------------------------------------------------------

  /** Bytes move from the stream to the buffer; nothing else happens to them. */
  ghost predicate Conserves(script: seq<StreamStep>, have: seq<Byte>, need: nat, r: Filled) {
    && (r.outcome == Closed ==> r.bytes == have + BytesOf(script) && TimeoutsIn(script) == 0)
    && (r.outcome != Closed ==> r.bytes + BytesOf(r.script) == have + BytesOf(script))
    && (r.outcome == Done ==> TimeoutsIn(r.script) == TimeoutsIn(script))
    && (r.outcome == Failed ==> TimeoutsIn(r.script) + 1 == TimeoutsIn(script))
    && (r.outcome != Closed ==> Size(r.script) <= Size(script))
    && (r.outcome != Closed && |have| < need ==> Size(r.script) < Size(script))
  }

  lemma ChunkFirst(bytes: seq<Byte>, tail: seq<StreamStep>)
    requires bytes != []
    ensures var script := [Chunk(bytes)] + tail;
      BytesOf(script) == bytes + BytesOf(tail) && TimeoutsIn(script) == TimeoutsIn(tail) && Size(script) == 1 + |bytes| + Size(tail)
  {
    var script := [Chunk(bytes)] + tail;
    assert script[0] == Chunk(bytes) && script[1..] == tail;
    assert !Ends(script[0]);
  }

  lemma Rejoined(bytes: seq<Byte>, n: nat, tail: seq<Byte>)
    requires n <= |bytes|
    ensures bytes[..n] + (bytes[n..] + tail) == bytes + tail
  {
    assert bytes == bytes[..n] + bytes[n..];
  }

  lemma TakingBytes(script: seq<StreamStep>, n: nat)
    requires script != [] && script[0].Chunk? && 0 < n <= |script[0].bytes|
    ensures var rest := AfterBytes(script, n);
      && script[0].bytes[..n] + BytesOf(rest) == BytesOf(script)
      && TimeoutsIn(rest) == TimeoutsIn(script)
      && Size(rest) < Size(script)
  {
    var bytes, tail := script[0].bytes, script[1..];
    assert script == [Chunk(bytes)] + tail;
    ChunkFirst(bytes, tail);
    if n < |bytes| {
      ChunkFirst(bytes[n..], tail);
      Rejoined(bytes, n, BytesOf(tail));
    }
  }

  /** Conservation composes: bytes that are taken first stay in front. */
  lemma TakenFirst(have: seq<Byte>, taken: seq<Byte>, rest: seq<Byte>, whole: seq<Byte>)
    requires taken + rest == whole
    ensures have + taken + rest == have + whole
  {
    assert have + taken + rest == have + (taken + rest);
  }

  lemma ChunkConserves(script: seq<StreamStep>, have: seq<Byte>, need: nat, n: nat, r: Filled)
    requires script != [] && script[0].Chunk? && 0 < n <= |script[0].bytes|
    requires Conserves(AfterBytes(script, n), have + script[0].bytes[..n], need, r)
    ensures Conserves(script, have, need, r)
  {
    TakingBytes(script, n);
    TakenFirst(have, script[0].bytes[..n], BytesOf(AfterBytes(script, n)), BytesOf(script));
  }

  lemma {:induction false} FillConserves(script: seq<StreamStep>, have: seq<Byte>, need: nat)
    requires |have| <= need
    ensures Conserves(script, have, need, Fill(script, have, need))
    decreases |script|, need - |have|
  {
    if |have| < need && script != [] {
      match script[0]
      case Chunk(bytes) =>
        var n := Min(|bytes|, need - |have|);
        if n != 0 {
          FillConserves(AfterBytes(script, n), have + bytes[..n], need);
          ChunkConserves(script, have, need, n, Fill(script, have, need));
        }
      case Interrupted => FillConserves(script[1..], have, need);
      case _ =>
    }
  }

  lemma CallsMakeProgress(script: seq<StreamStep>, partial: seq<Byte>, maxPayload: nat)
    requires InFlight(partial, maxPayload)
    ensures var call := ReadFrame(script, partial, maxPayload);
      call.result != Err(Eof) ==> Size(call.script) < Size(script)
  {
    if |partial| < HEADER_LEN {
      FillConserves(script, partial, HEADER_LEN);
      var header := Fill(script, partial, HEADER_LEN);
      if header.outcome == Done && DeclaredLength(header.bytes) <= maxPayload {
        FillConserves(header.script, header.bytes, HEADER_LEN + DeclaredLength(header.bytes));
      }
    } else {
      FillConserves(script, partial, HEADER_LEN + DeclaredLength(partial));
    }
  }

  /** The bytes of the stream that a call accounts for: finished, or still held. */
  ghost predicate Accounts(script: seq<StreamStep>, partial: seq<Byte>, maxPayload: nat, call: Call) {
    var total := partial + BytesOf(script);
    match call.result
    case Ok(payload) =>
      && HEADER_LEN + |payload| <= |total|
      && total == total[..HEADER_LEN + |payload|] + BytesOf(call.script)
      && DecodeAll(total, maxPayload) == [call.result] + DecodeAll(BytesOf(call.script), maxPayload)
      && call.partial == [] && TimeoutsIn(call.script) == TimeoutsIn(script)
    case Err(Eof) => DecodeAll(total, maxPayload) == [] && call.partial == total && TimeoutsIn(script) == 0
    case Err(Io) => call.partial + BytesOf(call.script) == total && TimeoutsIn(call.script) + 1 == TimeoutsIn(script)
    case Err(_) =>
      && |total| >= HEADER_LEN && BytesOf(call.script) == total[HEADER_LEN..]
      && DecodeAll(total, maxPayload) == [call.result] + DecodeAll(BytesOf(call.script), maxPayload)
      && call.partial == [] && TimeoutsIn(call.script) == TimeoutsIn(script)
  }

  /** Bytes of a frame with an accepted header, complete or not. */
  lemma AcceptedDecodes(bytes: seq<Byte>, maxPayload: nat)
    requires |bytes| >= HEADER_LEN && bytes[0] == FRAME_VERSION && DeclaredLength(bytes) <= maxPayload
    ensures var frame := HEADER_LEN + DeclaredLength(bytes);
      DecodeAll(bytes, maxPayload) ==
      if |bytes| < frame then [] else [Ok(bytes[HEADER_LEN..frame])] + DecodeAll(bytes[frame..], maxPayload)
  {}

  /** A rejected header takes five bytes. */
  lemma RejectedDecodes(bytes: seq<Byte>, maxPayload: nat)
    requires |bytes| >= HEADER_LEN && !(bytes[0] == FRAME_VERSION && DeclaredLength(bytes) <= maxPayload)
    ensures DecodeAll(bytes, maxPayload) ==
            [if bytes[0] != FRAME_VERSION then Err(UnsupportedVersion(bytes[0])) else Err(PayloadTooLarge(DeclaredLength(bytes)))]
            + DecodeAll(bytes[HEADER_LEN..], maxPayload)
  {}

  lemma HeaderStays(held: seq<Byte>, rest: seq<Byte>)
    requires |held| >= HEADER_LEN
    ensures (held + rest)[0] == held[0] && DeclaredLength(held + rest) == DeclaredLength(held)
  {
    assert (held + rest)[1..5] == held[1..5];
  }

  lemma FrameOfTotal(frame: seq<Byte>, rest: seq<Byte>)
    requires |frame| >= HEADER_LEN
    ensures (frame + rest)[HEADER_LEN..|frame|] == frame[HEADER_LEN..] && (frame + rest)[|frame|..] == rest
  {}

  lemma FinishedAccounts(script: seq<StreamStep>, held: seq<Byte>, maxPayload: nat, frame: Filled)
    requires |held| >= HEADER_LEN && held[0] == FRAME_VERSION && DeclaredLength(held) <= maxPayload
    requires |frame.bytes| == HEADER_LEN + DeclaredLength(held)
    requires frame.outcome == Done && held + BytesOf(script) == frame.bytes + BytesOf(frame.script)
    requires TimeoutsIn(frame.script) == TimeoutsIn(script)
    ensures Accounts(script, held, maxPayload, Call(frame.script, [], Ok(frame.bytes[HEADER_LEN..])))
  {
    HeaderStays(held, BytesOf(script));
    AcceptedDecodes(held + BytesOf(script), maxPayload);
    FrameOfTotal(frame.bytes, BytesOf(frame.script));
  }

  lemma UnfinishedAccounts(script: seq<StreamStep>, held: seq<Byte>, maxPayload: nat, frame: Filled)
    requires |held| >= HEADER_LEN && held[0] == FRAME_VERSION && DeclaredLength(held) <= maxPayload
    requires |frame.bytes| < HEADER_LEN + DeclaredLength(held)
    requires frame.outcome != Done && Conserves(script, held, HEADER_LEN + DeclaredLength(held), frame)
    ensures Accounts(script, held, maxPayload, Call(frame.script, frame.bytes, Err(FillError(frame.outcome))))
  {
    HeaderStays(held, BytesOf(script));
    AcceptedDecodes(held + BytesOf(script), maxPayload);
  }

  lemma RejectedAccounts(script: seq<StreamStep>, held: seq<Byte>, maxPayload: nat, error: FrameError)
    requires |held| == HEADER_LEN && !(held[0] == FRAME_VERSION && DeclaredLength(held) <= maxPayload)
    requires error == if held[0] != FRAME_VERSION then UnsupportedVersion(held[0]) else PayloadTooLarge(DeclaredLength(held))
    ensures Accounts(script, held, maxPayload, Call(script, [], Err(error)))
  {
    HeaderStays(held, BytesOf(script));
    RejectedDecodes(held + BytesOf(script), maxPayload);
    FrameOfTotal(held, BytesOf(script));
  }

  lemma BodyAccountsForBytes(script: seq<StreamStep>, held: seq<Byte>, maxPayload: nat)
    requires |held| == HEADER_LEN || (|held| > HEADER_LEN && InFlight(held, maxPayload))
    ensures Accounts(script, held, maxPayload, ReadBody(script, held, maxPayload))
  {
    var len := DeclaredLength(held);
    if held[0] == FRAME_VERSION && len <= maxPayload {
      var frame := Fill(script, held, HEADER_LEN + len);
      FillConserves(script, held, HEADER_LEN + len);
      if frame.outcome == Done {
        FinishedAccounts(script, held, maxPayload, frame);
      } else {
        UnfinishedAccounts(script, held, maxPayload, frame);
      }
    } else {
      RejectedAccounts(script, held, maxPayload, ReadBody(script, held, maxPayload).result.error);
    }
  }

  /** Every call accounts for every byte: nothing is lost, repeated or read past a frame's end. */
  lemma CallAccountsForBytes(script: seq<StreamStep>, partial: seq<Byte>, maxPayload: nat)
    requires InFlight(partial, maxPayload)
    ensures Accounts(script, partial, maxPayload, ReadFrame(script, partial, maxPayload))
  {
    if |partial| < HEADER_LEN {
      FillConserves(script, partial, HEADER_LEN);
      var header := Fill(script, partial, HEADER_LEN);
      if header.outcome == Done {
        assert partial + BytesOf(script) == header.bytes + BytesOf(header.script);
        BodyAccountsForBytes(header.script, header.bytes, maxPayload);
      }
    } else {
      BodyAccountsForBytes(script, partial, maxPayload);
    }
  }

  function UnlessIo(result: FrameResult): (results: seq<FrameResult>) {
    if result == Err(Io) then [] else [result]
  }

  lemma FirstResult(result: FrameResult, rest: seq<FrameResult>)
    ensures WithoutIo([result] + rest) == UnlessIo(result) + WithoutIo(rest)
    ensures IoCount([result] + rest) == (if result == Err(Io) then 1 else 0) + IoCount(rest)
  {
    assert ([result] + rest)[1..] == rest;
  }

  /** What a call returns is what the stream decodes to next; a timeout leaves the decoding as it was. */
  lemma CallDecodesNext(script: seq<StreamStep>, partial: seq<Byte>, maxPayload: nat, call: Call)
    requires Accounts(script, partial, maxPayload, call) && call.result != Err(Eof)
    ensures DecodeAll(partial + BytesOf(script), maxPayload) ==
            UnlessIo(call.result) + DecodeAll(call.partial + BytesOf(call.script), maxPayload)
    ensures TimeoutsIn(script) == TimeoutsIn(call.script) + if call.result == Err(Io) then 1 else 0
  {
    assert call.partial == [] ==> call.partial + BytesOf(call.script) == BytesOf(call.script);
  }

  /**
   The resumable reader refines decoding the whole stream: for every chunking and every placement
   of interrupts and timeouts, the calls return exactly the frames and header errors of the bytes in
   order, then Eof, with one Io error per timeout in between.
   */
  lemma {:induction false} ReaderRefinesDecoding(script: seq<StreamStep>, partial: seq<Byte>, maxPayload: nat)
    requires InFlight(partial, maxPayload)
    ensures var results := AllCalls(script, partial, maxPayload);
      && WithoutIo(results) == DecodeAll(partial + BytesOf(script), maxPayload) + [Err(Eof)]
      && IoCount(results) == TimeoutsIn(script)
    decreases Size(script)
  {
    var call := ReadFrame(script, partial, maxPayload);
    CallAccountsForBytes(script, partial, maxPayload);
    if call.result == Err(Eof) {
      FirstResult(call.result, []);
    } else {
      CallsMakeProgress(script, partial, maxPayload);
      ReaderRefinesDecoding(call.script, call.partial, maxPayload);
      FirstResult(call.result, AllCalls(call.script, call.partial, maxPayload));
      CallDecodesNext(script, partial, maxPayload, call);
    }
  }

  // ---------------------------------------------------------------------------
  // Streams of encoded payloads
  // ---------------------------------------------------------------------------

  function EncodeAll(payloads: seq<seq<Byte>>): (bytes: seq<Byte>) {
    if payloads == [] then [] else Encode(payloads[0]) + EncodeAll(payloads[1..])
  }

  function Oks(payloads: seq<seq<Byte>>): (results: seq<FrameResult>)
    ensures |results| == |payloads|
  {
    seq(|payloads|, i requires 0 <= i < |payloads| => Ok(payloads[i]))
  }

  lemma {:induction false} DecodingUndoesEncoding(payloads: seq<seq<Byte>>, maxPayload: nat)
    requires forall p :: p in payloads ==> |p| <= maxPayload && |p| < LENGTH_LIMIT
    ensures DecodeAll(EncodeAll(payloads), maxPayload) == Oks(payloads)
  {
    if payloads != [] {
      DecodingUndoesEncoding(payloads[1..], maxPayload);
      DecodingFirst(payloads[0], EncodeAll(payloads[1..]), maxPayload);
      OksFirst(payloads);
    }
  }

  lemma OksFirst(payloads: seq<seq<Byte>>)
    requires payloads != []
    ensures Oks(payloads) == [Ok(payloads[0])] + Oks(payloads[1..])
  {}

  lemma DecodingFirst(payload: seq<Byte>, tail: seq<Byte>, maxPayload: nat)
    requires |payload| <= maxPayload && |payload| < LENGTH_LIMIT
    ensures DecodeAll(Encode(payload) + tail, maxPayload) == [Ok(payload)] + DecodeAll(tail, maxPayload)
  {
    EncodedHeader(payload, tail);
    var bytes := Encode(payload) + tail;
    assert DeclaredLength(bytes) == |payload|;
    assert bytes[HEADER_LEN..HEADER_LEN + |payload|] == payload;
    assert bytes[HEADER_LEN + |payload|..] == tail;
  }

  /** Sent frames arrive: in order, unchanged, each once, whatever the transport does in between. */
  lemma SentFramesArrive(script: seq<StreamStep>, payloads: seq<seq<Byte>>, maxPayload: nat)
    requires BytesOf(script) == EncodeAll(payloads)
    requires forall p :: p in payloads ==> |p| <= maxPayload && |p| < LENGTH_LIMIT
    ensures var results := AllCalls(script, [], maxPayload);
      WithoutIo(results) == Oks(payloads) + [Err(Eof)] && IoCount(results) == TimeoutsIn(script)
  {
    ReaderRefinesDecoding(script, [], maxPayload);
    DecodingUndoesEncoding(payloads, maxPayload);
    assert [] + BytesOf(script) == BytesOf(script);
  }

  // ---------------------------------------------------------------------------
  // The buffer decoder and the one-shot reader
  // ---------------------------------------------------------------------------

  lemma BodyAgrees(script: seq<StreamStep>, header: seq<Byte>, maxPayload: nat)
    requires |header| == HEADER_LEN && TimeoutsIn(script) == 0
    ensures var parsed, read := Parse(header + BytesOf(script), maxPayload), ReadBody(script, header, maxPayload).result;
      if parsed.Err? && parsed.error.Truncated? then read == Err(Eof) else read == parsed
  {
    var total, len := header + BytesOf(script), DeclaredLength(header);
    assert total[1..5] == header[1..5];
    if header[0] == FRAME_VERSION && len <= maxPayload {
      FillConserves(script, header, HEADER_LEN + len);
      var frame := Fill(script, header, HEADER_LEN + len);
      if frame.outcome == Done {
        assert total == frame.bytes + BytesOf(frame.script);
        assert total[5..5 + len] == frame.bytes[5..];
      }
    }
  }

  /** On at least a header's worth of bytes, both decoders agree; a truncated buffer is an early Eof. */
  lemma BufferAndStreamAgree(script: seq<StreamStep>, maxPayload: nat)
    requires |BytesOf(script)| >= HEADER_LEN && TimeoutsIn(script) == 0
    ensures var parsed, read := Parse(BytesOf(script), maxPayload), ReadFrame(script, [], maxPayload).result;
      if parsed.Err? && parsed.error.Truncated? then read == Err(Eof) else read == parsed
  {
    var total, header := BytesOf(script), Fill(script, [], HEADER_LEN);
    FillConserves(script, [], HEADER_LEN);
    assert [] + total == total;
    BodyAgrees(header.script, header.bytes, maxPayload);
  }
}
