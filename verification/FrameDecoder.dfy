/**
 Length-prefixed frames: a four-byte big-endian length, then that many payload
 bytes. JSON text is abstract: `parse` maps a payload to a message or to
 nothing, and a payload to encode is given as its bytes.
 */
module FrameDecoder {
  import opened Wrappers

  newtype byte = x: int | 0 <= x < 256

  type Parse<T> = seq<byte> -> Option<T>

  datatype FrameError =
    | InvalidLimit
    | BufferLimitExceeded
    | InvalidLength
    | LengthOutOfRange
    | QueueLimitExceeded
    | InvalidJson

  // ---------------------------------------------------------------- encoding

  function ReadUInt32(b: seq<byte>): nat
    requires |b| >= 4
  {
    b[0] as int * 0x1000000 + b[1] as int * 0x10000 + b[2] as int * 0x100 + b[3] as int
  }

  function WriteUInt32(n: nat): (b: seq<byte>)
    requires n < 0x1_0000_0000
    ensures |b| == 4 && ReadUInt32(b) == n
  {
    var high := n / 0x100;
    var higher := high / 0x100;
    [(higher / 0x100) as byte, (higher % 0x100) as byte, (high % 0x100) as byte, (n % 0x100) as byte]
  }

  /** Serialized bytes as one frame; the four-byte length cannot hold more than its own range. */
  function Encode(payload: seq<byte>, maxFrameBytes: int): Result<seq<byte>, FrameError> {
    if maxFrameBytes < 1 then Err(InvalidLimit)
    else if |payload| == 0 || |payload| > maxFrameBytes then Err(InvalidLength)
    else if |payload| >= 0x1_0000_0000 then Err(LengthOutOfRange)
    else Ok(WriteUInt32(|payload|) + payload)
  }

  /** A payload is encoded exactly when it is not empty and fits the limit and the length field. */
  lemma EncodesIff(payload: seq<byte>, maxFrameBytes: int)
    ensures var r, fits := Encode(payload, maxFrameBytes), 1 <= |payload| <= maxFrameBytes;
      && (r.Ok? <==> fits && |payload| < 0x1_0000_0000)
      && (r.Ok? ==> |r.value| == |payload| + 4 && ReadUInt32(r.value[..4]) == |payload| && r.value[4..] == payload)
      && (r == Err(InvalidLimit) <==> maxFrameBytes <= 0)
      && (r == Err(InvalidLength) <==> maxFrameBytes >= 1 && !fits)
      && (r == Err(LengthOutOfRange) <==> fits && |payload| >= 0x1_0000_0000)
  {
    var r := Encode(payload, maxFrameBytes);
    if r.Ok? {
      assert r.value[..4] == WriteUInt32(|payload|);
    }
  }

  // ---------------------------------------------------------------- the reference parse

  /** The messages of the complete frames, the bytes left over, and what stopped the parse early. */
  datatype Decoded<T> = Decoded(messages: seq<T>, rest: seq<byte>, failure: Option<FrameError>)

  predicate HasFrame(b: seq<byte>) {
    |b| >= 4 && |b| >= ReadUInt32(b) + 4
  }

  predicate LengthAccepted(b: seq<byte>, maxFrameBytes: nat)
    requires |b| >= 4
  {
    1 <= ReadUInt32(b) <= maxFrameBytes
  }

  function Payload(b: seq<byte>): seq<byte>
    requires HasFrame(b)
  {
    b[4..ReadUInt32(b) + 4]
  }

  /** Parse as many frames as there are, but no more than `limit` of them. */
  function Decode<T>(b: seq<byte>, maxFrameBytes: nat, parse: Parse<T>, limit: nat): Decoded<T>
    decreases |b|
  {
    if |b| < 4 then Decoded([], b, None)
    else if !LengthAccepted(b, maxFrameBytes) then Decoded([], b, Some(InvalidLength))
    else if !HasFrame(b) then Decoded([], b, None)
    else if limit == 0 then Decoded([], b, Some(QueueLimitExceeded))
    else
      var rest := b[ReadUInt32(b) + 4..];
      match parse(Payload(b))
      case None => Decoded([], rest, Some(InvalidJson))
      case Some(message) =>
        var later := Decode(rest, maxFrameBytes, parse, limit - 1);
        later.(messages := [message] + later.messages)
  }

  /** The whole stream at once, with no limit on queued frames. */
  function OneShot<T>(b: seq<byte>, maxFrameBytes: nat, parse: Parse<T>): Decoded<T> {
    Decode(b, maxFrameBytes, parse, |b|)
  }

  // ---------------------------------------------------------------- the decoder

  /** A decoded stream behind messages that were decoded before it. */
  function After<T>(messages: seq<T>, later: Decoded<T>): Decoded<T> {
    later.(messages := messages + later.messages)
  }

  /** A complete frame yields its message, and the parse goes on behind it. */
  lemma NextFrame<T>(b: seq<byte>, maxFrameBytes: nat, parse: Parse<T>, limit: nat, messages: seq<T>)
    requires HasFrame(b) && LengthAccepted(b, maxFrameBytes) && limit > 0
    ensures var rest := b[ReadUInt32(b) + 4..];
      After(messages, Decode(b, maxFrameBytes, parse, limit)) ==
        match parse(Payload(b))
        case None => Decoded(messages, rest, Some(InvalidJson))
        case Some(message) => After(messages + [message], Decode(rest, maxFrameBytes, parse, limit - 1))
  {
    if parse(Payload(b)).Some? {
      var later := Decode(b[ReadUInt32(b) + 4..], maxFrameBytes, parse, limit - 1);
      assert messages + ([parse(Payload(b)).value] + later.messages)
             == messages + [parse(Payload(b)).value] + later.messages;
    }
  }

  /** What stops the parse at the start of b, if no frame can be taken there. */
  lemma NoFrame<T>(b: seq<byte>, maxFrameBytes: nat, parse: Parse<T>, limit: nat, messages: seq<T>)
    ensures var decoded := After(messages, Decode(b, maxFrameBytes, parse, limit));
      if |b| < 4 then decoded == Decoded(messages, b, None)
      else if !LengthAccepted(b, maxFrameBytes) then decoded == Decoded(messages, b, Some(InvalidLength))
      else if !HasFrame(b) then decoded == Decoded(messages, b, None)
      else if limit == 0 then decoded == Decoded(messages, b, Some(QueueLimitExceeded))
      else true
  {
    assert messages + [] == messages;
  }

  /** Take the complete frames off the front of the buffer. */
  method TakeFrames<T>(start: seq<byte>, maxFrameBytes: nat, maxQueuedFrames: nat, parse: Parse<T>)
    returns (r: Result<seq<T>, FrameError>, buffer: seq<byte>)
    ensures var decoded := Decode(start, maxFrameBytes, parse, maxQueuedFrames);
      && buffer == decoded.rest
      && r == if decoded.failure.Some? then Err(decoded.failure.value) else Ok(decoded.messages)
  {
    buffer := start;
    var messages: seq<T> := [];
    ghost var decoded := Decode(start, maxFrameBytes, parse, maxQueuedFrames);
    while |buffer| >= 4
      invariant |messages| <= maxQueuedFrames
      invariant decoded == After(messages, Decode(buffer, maxFrameBytes, parse, maxQueuedFrames - |messages|))
      decreases |buffer|
    {
      NoFrame(buffer, maxFrameBytes, parse, maxQueuedFrames - |messages|, messages);
      var payloadLength := ReadUInt32(buffer);
      if payloadLength < 1 || payloadLength > maxFrameBytes {
        return Err(InvalidLength), buffer;
      }
      if |buffer| < payloadLength + 4 {
        break;
      }
      if |messages| >= maxQueuedFrames {
        return Err(QueueLimitExceeded), buffer;
      }
      NextFrame(buffer, maxFrameBytes, parse, maxQueuedFrames - |messages|, messages);
      var payload := buffer[4..payloadLength + 4];
      buffer := buffer[payloadLength + 4..];
      match parse(payload)
      case None => return Err(InvalidJson), buffer;
      case Some(message) => messages := messages + [message];
    }
    NoFrame(buffer, maxFrameBytes, parse, maxQueuedFrames - |messages|, messages);
    return Ok(messages), buffer;
  }

  class ControllerFrameDecoder<T> {
    const maxFrameBytes: nat
    const maxQueuedFrames: nat
    const parse: Parse<T>
    var buffer: seq<byte>

    ghost predicate Valid()
      reads this
    {
      maxFrameBytes >= 1 && maxQueuedFrames >= 1
    }

    constructor (maxFrameBytes: nat, maxQueuedFrames: nat, parse: Parse<T>)
      requires maxFrameBytes >= 1 && maxQueuedFrames >= 1
      ensures Valid() && buffer == []
      ensures this.maxFrameBytes == maxFrameBytes && this.maxQueuedFrames == maxQueuedFrames && this.parse == parse
    {
      this.maxFrameBytes := maxFrameBytes;
      this.maxQueuedFrames := maxQueuedFrames;
      this.parse := parse;
      buffer := [];
    }

    method Push(chunk: seq<byte>) returns (r: Result<seq<T>, FrameError>)
      requires Valid()
      modifies this`buffer
      ensures (r, buffer) == Pushed(old(buffer), chunk, maxFrameBytes, maxQueuedFrames, parse)
    {
      if chunk == [] {
        return Ok([]);
      }
      if |buffer| + |chunk| > (maxFrameBytes + 4) * maxQueuedFrames {
        return Err(BufferLimitExceeded);
      }
      buffer := buffer + chunk;
      r, buffer := TakeFrames(buffer, maxFrameBytes, maxQueuedFrames, parse);
    }
  }

  /** Limits are checked before a decoder exists. */
  method NewDecoder<T>(maxFrameBytes: int, maxQueuedFrames: int, parse: Parse<T>)
    returns (r: Result<ControllerFrameDecoder<T>, FrameError>)
    ensures r.Ok? <==> maxFrameBytes >= 1 && maxQueuedFrames >= 1
    ensures r.Err? ==> r.error == InvalidLimit
    ensures r.Ok? ==> fresh(r.value) && r.value.Valid() && r.value.buffer == []
                      && r.value.maxFrameBytes == maxFrameBytes && r.value.maxQueuedFrames == maxQueuedFrames
                      && r.value.parse == parse
  {
    if maxFrameBytes < 1 || maxQueuedFrames < 1 {
      return Err(InvalidLimit);
    }
    var decoder := new ControllerFrameDecoder(maxFrameBytes, maxQueuedFrames, parse);
    return Ok(decoder);
  }

  /** One push: the messages it returns, or why it fails, and the bytes it leaves in the buffer. */
  function Pushed<T>(buffer: seq<byte>, chunk: seq<byte>, maxFrameBytes: nat, maxQueuedFrames: nat, parse: Parse<T>)
    : (Result<seq<T>, FrameError>, seq<byte>)
  {
    if chunk == [] then (Ok([]), buffer)
    else if |buffer| + |chunk| > (maxFrameBytes + 4) * maxQueuedFrames then (Err(BufferLimitExceeded), buffer)
    else
      var decoded := Decode(buffer + chunk, maxFrameBytes, parse, maxQueuedFrames);
      (if decoded.failure.Some? then Err(decoded.failure.value) else Ok(decoded.messages), decoded.rest)
  }

  /** Push the chunks one after another into an empty decoder; the first failure ends the stream. */
  function Feed<T>(chunks: seq<seq<byte>>, maxFrameBytes: nat, maxQueuedFrames: nat, parse: Parse<T>)
    : Result<(seq<T>, seq<byte>), FrameError>
  {
    if chunks == [] then Ok(([], []))
    else
      var before :- Feed(chunks[..|chunks| - 1], maxFrameBytes, maxQueuedFrames, parse);
      var pushed := Pushed(before.1, chunks[|chunks| - 1], maxFrameBytes, maxQueuedFrames, parse);
      var messages :- pushed.0;
      Ok((before.0 + messages, pushed.1))
  }

  function Concat<T>(parts: seq<seq<T>>): seq<T> {
    if parts == [] then [] else Concat(parts[..|parts| - 1]) + parts[|parts| - 1]
  }

  // ---------------------------------------------------------------- properties of the parse

  /** What is left after a clean parse holds no complete frame, and is shorter than the longest one. */
  lemma {:induction false} ResidueIsIncomplete<T>(b: seq<byte>, maxFrameBytes: nat, parse: Parse<T>, limit: nat)
    requires Decode(b, maxFrameBytes, parse, limit).failure.None?
    ensures var rest := Decode(b, maxFrameBytes, parse, limit).rest;
      && |rest| < maxFrameBytes + 4
      && OneShot(rest, maxFrameBytes, parse) == Decoded([], rest, None)
    decreases |b|
  {
    if HasFrame(b) && LengthAccepted(b, maxFrameBytes) {
      ResidueIsIncomplete(b[ReadUInt32(b) + 4..], maxFrameBytes, parse, limit - 1);
    }
  }

  /** A limit that is not reached does not matter. */
  lemma {:induction false} LimitIsSlack<T>(b: seq<byte>, maxFrameBytes: nat, parse: Parse<T>, limit: nat, other: nat)
    requires Decode(b, maxFrameBytes, parse, limit).failure != Some(QueueLimitExceeded)
    requires other >= limit || other >= |b|
    ensures Decode(b, maxFrameBytes, parse, other) == Decode(b, maxFrameBytes, parse, limit)
    decreases |b|
  {
    if HasFrame(b) && LengthAccepted(b, maxFrameBytes) && parse(Payload(b)).Some? {
      LimitIsSlack(b[ReadUInt32(b) + 4..], maxFrameBytes, parse, limit - 1, other - 1);
    }
  }

  lemma {:induction false} OneShotNeverOverflows<T>(b: seq<byte>, maxFrameBytes: nat, parse: Parse<T>, limit: nat)
    requires limit >= |b|
    ensures Decode(b, maxFrameBytes, parse, limit).failure != Some(QueueLimitExceeded)
    decreases |b|
  {
    if HasFrame(b) && LengthAccepted(b, maxFrameBytes) && parse(Payload(b)).Some? {
      OneShotNeverOverflows(b[ReadUInt32(b) + 4..], maxFrameBytes, parse, limit - 1);
    }
  }

  /** Parsing can stop after any clean prefix and go on from what it left. */
  lemma {:induction false} DecodeAppend<T>(a: seq<byte>, c: seq<byte>, maxFrameBytes: nat, parse: Parse<T>)
    requires OneShot(a, maxFrameBytes, parse).failure.None?
    ensures var first := OneShot(a, maxFrameBytes, parse);
      var second := OneShot(first.rest + c, maxFrameBytes, parse);
      OneShot(a + c, maxFrameBytes, parse) == second.(messages := first.messages + second.messages)
    decreases |a|
  {
    if HasFrame(a) && LengthAccepted(a, maxFrameBytes) {
      var rest := a[ReadUInt32(a) + 4..];
      OneShotFrame(a, maxFrameBytes, parse);
      DecodeAppend(rest, c, maxFrameBytes, parse);
      FrameStays(a, c);
      OneShotFrame(a + c, maxFrameBytes, parse);
      var first := OneShot(rest, maxFrameBytes, parse);
      var message, later := [parse(Payload(a)).value], OneShot(first.rest + c, maxFrameBytes, parse).messages;
      assert message + first.messages + later == message + (first.messages + later);
    } else {
      assert [] + OneShot(a + c, maxFrameBytes, parse).messages == OneShot(a + c, maxFrameBytes, parse).messages;
    }
  }

  lemma FrameStays(a: seq<byte>, c: seq<byte>)
    requires HasFrame(a)
    ensures HasFrame(a + c) && ReadUInt32(a + c) == ReadUInt32(a) && Payload(a + c) == Payload(a)
    ensures (a + c)[ReadUInt32(a) + 4..] == a[ReadUInt32(a) + 4..] + c
  {
  }

  /** The first frame of a stream, and the parse of what follows it. */
  lemma OneShotFrame<T>(b: seq<byte>, maxFrameBytes: nat, parse: Parse<T>)
    requires HasFrame(b) && LengthAccepted(b, maxFrameBytes)
    ensures var rest := b[ReadUInt32(b) + 4..];
      OneShot(b, maxFrameBytes, parse) ==
        match parse(Payload(b))
        case None => Decoded([], rest, Some(InvalidJson))
        case Some(message) =>
          var later := OneShot(rest, maxFrameBytes, parse);
          later.(messages := [message] + later.messages)
  {
    var rest := b[ReadUInt32(b) + 4..];
    if parse(Payload(b)).Some? {
      OneShotNeverOverflows(rest, maxFrameBytes, parse, |rest|);
      LimitIsSlack(rest, maxFrameBytes, parse, |rest|, |b| - 1);
    }
  }

  // ---------------------------------------------------------------- chunks do not matter

  /** However a stream is cut into chunks, if every push succeeds the outcome is the one-shot parse. */
  lemma {:induction false} ChunkIndependence<T>(chunks: seq<seq<byte>>, maxFrameBytes: nat, maxQueuedFrames: nat,
                                               parse: Parse<T>)
    requires Feed(chunks, maxFrameBytes, maxQueuedFrames, parse).Ok?
    ensures var fed := Feed(chunks, maxFrameBytes, maxQueuedFrames, parse).value;
      && OneShot(Concat(chunks), maxFrameBytes, parse) == Decoded(fed.0, fed.1, None)
      && |fed.1| < maxFrameBytes + 4
  {
    if chunks != [] {
      var init, chunk := chunks[..|chunks| - 1], chunks[|chunks| - 1];
      ChunkIndependence(init, maxFrameBytes, maxQueuedFrames, parse);
      var before := Feed(init, maxFrameBytes, maxQueuedFrames, parse).value;
      DecodeAppend(Concat(init), chunk, maxFrameBytes, parse);
      if chunk == [] {
        assert Concat(init) + chunk == Concat(init);
        assert before.0 + [] == before.0;
      } else {
        LimitIsSlack(before.1 + chunk, maxFrameBytes, parse, maxQueuedFrames, |before.1 + chunk|);
        ResidueIsIncomplete(before.1 + chunk, maxFrameBytes, parse, maxQueuedFrames);
      }
    }
  }

  lemma {:induction false} CleanWithinLimit<T>(b: seq<byte>, maxFrameBytes: nat, parse: Parse<T>, limit: nat)
    ensures Decode(b, maxFrameBytes, parse, limit).failure.None? <==>
            && OneShot(b, maxFrameBytes, parse).failure.None?
            && |OneShot(b, maxFrameBytes, parse).messages| <= limit
    decreases |b|
  {
    if HasFrame(b) && LengthAccepted(b, maxFrameBytes) {
      OneShotFrame(b, maxFrameBytes, parse);
      if limit > 0 {
        CleanWithinLimit(b[ReadUInt32(b) + 4..], maxFrameBytes, parse, limit - 1);
      }
    }
  }

  /**
   A push succeeds exactly when the bytes fit the receive buffer and hold only
   well-formed frames, no more of them complete than may be queued.
   */
  lemma PushSucceedsIff<T>(buffer: seq<byte>, chunk: seq<byte>, maxFrameBytes: nat, maxQueuedFrames: nat,
                           parse: Parse<T>)
    ensures Pushed(buffer, chunk, maxFrameBytes, maxQueuedFrames, parse).0.Ok? <==>
            chunk == [] || (
              && |buffer| + |chunk| <= (maxFrameBytes + 4) * maxQueuedFrames
              && OneShot(buffer + chunk, maxFrameBytes, parse).failure.None?
              && |OneShot(buffer + chunk, maxFrameBytes, parse).messages| <= maxQueuedFrames)
  {
    CleanWithinLimit(buffer + chunk, maxFrameBytes, parse, maxQueuedFrames);
  }

  // ---------------------------------------------------------------- encoded frames decode to themselves

  /** The frames of the given messages, in order. */
  function EncodeAll<T>(messages: seq<T>, serialize: T -> seq<byte>, maxFrameBytes: int)
    : Result<seq<byte>, FrameError>
  {
    if messages == [] then Ok([])
    else
      var first :- Encode(serialize(messages[0]), maxFrameBytes);
      var later :- EncodeAll(messages[1..], serialize, maxFrameBytes);
      Ok(first + later)
  }

  /** Parsing is a left inverse of serializing on these messages. */
  ghost predicate Inverse<T>(messages: seq<T>, serialize: T -> seq<byte>, parse: Parse<T>) {
    forall message :: message in messages ==> parse(serialize(message)) == Some(message)
  }

  lemma {:induction false} EncodedFramesParse<T>(messages: seq<T>, serialize: T -> seq<byte>, parse: Parse<T>,
                                                maxFrameBytes: nat)
    requires EncodeAll(messages, serialize, maxFrameBytes).Ok? && Inverse(messages, serialize, parse)
    ensures OneShot(EncodeAll(messages, serialize, maxFrameBytes).value, maxFrameBytes, parse)
            == Decoded(messages, [], None)
  {
    if messages != [] {
      var tail := EncodeAll(messages[1..], serialize, maxFrameBytes).value;
      var b := EncodeAll(messages, serialize, maxFrameBytes).value;
      EncodedFramesParse(messages[1..], serialize, parse, maxFrameBytes);
      OneShotFrame(b, maxFrameBytes, parse);
      assert [messages[0]] + messages[1..] == messages;
    }
  }

  /** Encoded messages come out again, in order and with nothing left over, however the bytes are cut. */
  lemma RoundTrip<T>(messages: seq<T>, serialize: T -> seq<byte>, parse: Parse<T>, maxFrameBytes: nat,
                     chunks: seq<seq<byte>>, maxQueuedFrames: nat)
    requires EncodeAll(messages, serialize, maxFrameBytes).Ok? && Inverse(messages, serialize, parse)
    requires Concat(chunks) == EncodeAll(messages, serialize, maxFrameBytes).value
    requires Feed(chunks, maxFrameBytes, maxQueuedFrames, parse).Ok?
    ensures Feed(chunks, maxFrameBytes, maxQueuedFrames, parse) == Ok((messages, []))
  {
    ChunkIndependence(chunks, maxFrameBytes, maxQueuedFrames, parse);
    EncodedFramesParse(messages, serialize, parse, maxFrameBytes);
  }

  // ---------------------------------------------------------------- one byte at a time

  function Bytewise(b: seq<byte>): seq<seq<byte>>
  {
    seq(|b|, i requires 0 <= i < |b| => [b[i]])
  }

  lemma {:induction false} ConcatBytewise(b: seq<byte>)
    ensures Concat(Bytewise(b)) == b
  {
    if b != [] {
      ConcatBytewise(b[..|b| - 1]);
      assert Bytewise(b)[..|b| - 1] == Bytewise(b[..|b| - 1]);
      assert b == b[..|b| - 1] + [b[|b| - 1]];
    }
  }

  /** One more byte completes at most one frame, so neither the buffer nor the queue limit is met. */
  lemma OneByteFits<T>(rest: seq<byte>, x: byte, maxFrameBytes: nat, maxQueuedFrames: nat, parse: Parse<T>)
    requires maxFrameBytes >= 1 && maxQueuedFrames >= 1
    requires |rest| < maxFrameBytes + 4 && OneShot(rest, maxFrameBytes, parse) == Decoded([], rest, None)
    ensures var whole := OneShot(rest + [x], maxFrameBytes, parse);
      Pushed(rest, [x], maxFrameBytes, maxQueuedFrames, parse)
      == (if whole.failure.Some? then Err(whole.failure.value) else Ok(whole.messages), whole.rest)
  {
    var b := rest + [x];
    assert |rest| + 1 <= (maxFrameBytes + 4) * maxQueuedFrames by {
      assert (maxFrameBytes + 4) * 1 <= (maxFrameBytes + 4) * maxQueuedFrames;
    }
    if HasFrame(b) && LengthAccepted(b, maxFrameBytes) {
      if |rest| >= 4 {
        assert ReadUInt32(b) == ReadUInt32(rest) && !HasFrame(rest);
      }
      assert b[ReadUInt32(b) + 4..] == [];
      assert Decode(b, maxFrameBytes, parse, maxQueuedFrames).failure != Some(QueueLimitExceeded);
    }
    LimitIsSlack(b, maxFrameBytes, parse, maxQueuedFrames, |b|);
  }

  lemma {:induction false} FailedPrefixFails<T>(b: seq<byte>, n: nat, maxFrameBytes: nat, parse: Parse<T>)
    requires n <= |b| && OneShot(b, maxFrameBytes, parse).failure.None?
    ensures OneShot(b[..n], maxFrameBytes, parse).failure.None?
    decreases |b|
  {
    var a := b[..n];
    if HasFrame(a) && LengthAccepted(a, maxFrameBytes) {
      var k := ReadUInt32(a) + 4;
      assert ReadUInt32(b) == ReadUInt32(a);
      assert a[4..k] == b[4..k];
      OneShotFrame(b, maxFrameBytes, parse);
      OneShotFrame(a, maxFrameBytes, parse);
      assert a[k..] == b[k..][..n - k];
      FailedPrefixFails(b[k..], n - k, maxFrameBytes, parse);
    } else if |a| >= 4 {
      assert ReadUInt32(b) == ReadUInt32(a);
    }
  }

  /** Fed one byte at a time, a stream is accepted exactly when the one-shot parse finds no fault in it. */
  lemma {:induction false} BytewiseSucceedsIffClean<T>(b: seq<byte>, maxFrameBytes: nat, maxQueuedFrames: nat,
                                                      parse: Parse<T>)
    requires maxFrameBytes >= 1 && maxQueuedFrames >= 1
    ensures Feed(Bytewise(b), maxFrameBytes, maxQueuedFrames, parse).Ok? <==>
            OneShot(b, maxFrameBytes, parse).failure.None?
  {
    ConcatBytewise(b);
    if Feed(Bytewise(b), maxFrameBytes, maxQueuedFrames, parse).Ok? {
      ChunkIndependence(Bytewise(b), maxFrameBytes, maxQueuedFrames, parse);
    } else if b != [] && OneShot(b, maxFrameBytes, parse).failure.None? {
      var init, x := b[..|b| - 1], b[|b| - 1];
      assert b == init + [x] && Bytewise(b)[..|b| - 1] == Bytewise(init);
      FailedPrefixFails(b, |b| - 1, maxFrameBytes, parse);
      BytewiseSucceedsIffClean(init, maxFrameBytes, maxQueuedFrames, parse);
      ConcatBytewise(init);
      ChunkIndependence(Bytewise(init), maxFrameBytes, maxQueuedFrames, parse);
      var before := Feed(Bytewise(init), maxFrameBytes, maxQueuedFrames, parse).value;
      ResidueIsIncomplete(init, maxFrameBytes, parse, |init|);
      OneByteFits(before.1, x, maxFrameBytes, maxQueuedFrames, parse);
      DecodeAppend(init, [x], maxFrameBytes, parse);
      assert false;
    }
  }
}
