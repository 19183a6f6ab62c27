/**
 The receiving half of the channel: length-prefixed messages cut out of a byte stream
 that arrives in arbitrary chunks, with a bounded carry-over buffer.
 */
module FrameDecoder {

  type byte = x: int | 0 <= x < 256

  const MESSAGE_MAX_LEN: int := 8388608
  const PAYLOAD_MAX_LEN: int := MESSAGE_MAX_LEN - 4

  // ----- Frames

  function ReadUint32(s: seq<byte>, littleEndian: bool): (n: nat)
    requires |s| == 4
    ensures n < 0x1_0000_0000
  {
    var b0: int, b1: int, b2: int, b3: int := s[0], s[1], s[2], s[3];
    if littleEndian then b0 + 0x100 * b1 + 0x1_0000 * b2 + 0x100_0000 * b3
    else b3 + 0x100 * b2 + 0x1_0000 * b1 + 0x100_0000 * b0
  }

  function WriteUint32(n: nat, littleEndian: bool): (s: seq<byte>)
    requires n < 0x1_0000_0000
    ensures |s| == 4
  {
    var b0, b1, b2, b3 := n % 0x100, n / 0x100 % 0x100, n / 0x1_0000 % 0x100, n / 0x100_0000 % 0x100;
    if littleEndian then [b0, b1, b2, b3] else [b3, b2, b1, b0]
  }

  lemma ReadWrite(n: nat, littleEndian: bool)
    requires n < 0x1_0000_0000
    ensures ReadUint32(WriteUint32(n, littleEndian), littleEndian) == n
  {
    assert n / 0x1_0000 == n / 0x100 / 0x100;
    assert n / 0x100_0000 == n / 0x1_0000 / 0x100;
  }

  /** The least significant byte comes first iff the order is little-endian. */
  lemma ByteOrder(n: nat, littleEndian: bool)
    requires n < 0x100
    ensures WriteUint32(n, littleEndian) == if littleEndian then [n, 0, 0, 0] else [0, 0, 0, n]
  {
    assert n / 0x100 == 0 && n / 0x1_0000 == 0 && n / 0x100_0000 == 0;
  }

  predicate IsMessage(m: seq<byte>) {
    |m| < 0x1_0000_0000
  }

  function Frame(m: seq<byte>, littleEndian: bool): (s: seq<byte>)
    requires IsMessage(m)
    ensures |s| == 4 + |m|
  {
    WriteUint32(|m|, littleEndian) + m
  }

  ghost predicate AreMessages(ms: seq<seq<byte>>) {
    forall i :: 0 <= i < |ms| ==> IsMessage(ms[i])
  }

  function EncodeAll(ms: seq<seq<byte>>, littleEndian: bool): seq<byte>
    requires AreMessages(ms)
  {
    if ms == [] then [] else Frame(ms[0], littleEndian) + EncodeAll(ms[1..], littleEndian)
  }

  // ----- Decoding a whole stream at once

  datatype Decoded = Decoded(messages: seq<seq<byte>>, rest: seq<byte>)

  /** A complete frame is at the start. */
  predicate HasFrame(s: seq<byte>, littleEndian: bool) {
    |s| >= 4 && |s| >= 4 + ReadUint32(s[..4], littleEndian)
  }

  /** The same, with more messages before. */
  function After(messages: seq<seq<byte>>, d: Decoded): Decoded {
    Decoded(messages + d.messages, d.rest)
  }

  lemma AfterAfter(a: seq<seq<byte>>, b: seq<seq<byte>>, d: Decoded)
    ensures After(a, After(b, d)) == After(a + b, d)
  {
    assert a + (b + d.messages) == (a + b) + d.messages;
  }

  function Decode(s: seq<byte>, littleEndian: bool): Decoded {
    if !HasFrame(s, littleEndian) then Decoded([], s)
    else
      var end := 4 + ReadUint32(s[..4], littleEndian);
      After([s[4..end]], Decode(s[end..], littleEndian))
  }

  /** Decoding can stop anywhere and go on later from what was left. */
  lemma {:induction false} DecodeAppend(a: seq<byte>, b: seq<byte>, littleEndian: bool)
    ensures var d := Decode(a, littleEndian);
            Decode(a + b, littleEndian) == After(d.messages, Decode(d.rest + b, littleEndian))
    decreases |a|
  {
    hide ReadUint32;
    var d := Decode(a, littleEndian);
    if HasFrame(a, littleEndian) {
      assert (a + b)[..4] == a[..4];
      var end := 4 + ReadUint32(a[..4], littleEndian);
      assert (a + b)[4..end] == a[4..end] && (a + b)[end..] == a[end..] + b;
      DecodeAppend(a[end..], b, littleEndian);
      AfterAfter([a[4..end]], Decode(a[end..], littleEndian).messages, Decode(d.rest + b, littleEndian));
    } else {
      assert [] + Decode(a + b, littleEndian).messages == Decode(a + b, littleEndian).messages;
    }
  }

  /** What is left over holds no complete frame, so decoding it again yields nothing. */
  lemma {:induction false} RestIsIncomplete(s: seq<byte>, littleEndian: bool)
    ensures !HasFrame(Decode(s, littleEndian).rest, littleEndian)
    decreases |s|
  {
    hide ReadUint32;
    if HasFrame(s, littleEndian) {
      RestIsIncomplete(s[4 + ReadUint32(s[..4], littleEndian)..], littleEndian);
    }
  }

  lemma FrameIsCut(m: seq<byte>, tail: seq<byte>, littleEndian: bool)
    requires IsMessage(m)
    ensures Decode(Frame(m, littleEndian) + tail, littleEndian) == After([m], Decode(tail, littleEndian))
  {
    var s := Frame(m, littleEndian) + tail;
    assert s[..4] == WriteUint32(|m|, littleEndian);
    ReadWrite(|m|, littleEndian);
    assert s[4..4 + |m|] == m && s[4 + |m|..] == tail;
  }

  lemma {:induction false} DecodeEncoded(ms: seq<seq<byte>>, tail: seq<byte>, littleEndian: bool)
    requires AreMessages(ms)
    ensures Decode(EncodeAll(ms, littleEndian) + tail, littleEndian) == After(ms, Decode(tail, littleEndian))
  {
    hide Decode, Frame;
    if ms == [] {
      assert EncodeAll(ms, littleEndian) + tail == tail;
      assert ms + Decode(tail, littleEndian).messages == Decode(tail, littleEndian).messages;
    } else {
      var after := EncodeAll(ms[1..], littleEndian) + tail;
      assert EncodeAll(ms, littleEndian) + tail == Frame(ms[0], littleEndian) + after;
      FrameIsCut(ms[0], after, littleEndian);
      DecodeEncoded(ms[1..], tail, littleEndian);
      AfterAfter([ms[0]], ms[1..], Decode(tail, littleEndian));
      assert [ms[0]] + ms[1..] == ms;
    }
  }

  /** Decoding what was encoded gives every message back, once and in order. */
  lemma RoundTrip(ms: seq<seq<byte>>, littleEndian: bool)
    requires AreMessages(ms)
    ensures Decode(EncodeAll(ms, littleEndian), littleEndian) == Decoded(ms, [])
  {
    DecodeEncoded(ms, [], littleEndian);
    assert EncodeAll(ms, littleEndian) + [] == EncodeAll(ms, littleEndian);
  }

  // ----- Decoding chunk by chunk

  /** What one 'data' event does to the buffer. */
  datatype Step = Step(messages: seq<seq<byte>>, buffer: seq<byte>, discarded: bool)

  function OnChunk(buffer: seq<byte>, chunk: seq<byte>, littleEndian: bool): Step {
    if |buffer + chunk| > PAYLOAD_MAX_LEN then Step([], [], true)
    else
      var d := Decode(buffer + chunk, littleEndian);
      Step(d.messages, d.rest, false)
  }

  class Receiver {
    const littleEndian: bool
    var recvBuffer: seq<byte>

    constructor (littleEndian: bool)
      ensures this.littleEndian == littleEndian && recvBuffer == []
    {
      this.littleEndian := littleEndian;
      recvBuffer := [];
    }

    /** The 'data' handler; the delivered messages are returned in order. */
    method OnData(chunk: seq<byte>) returns (messages: seq<seq<byte>>, discarded: bool)
      modifies this
      ensures Step(messages, recvBuffer, discarded) == OnChunk(old(recvBuffer), chunk, littleEndian)
    {
      hide ReadUint32, Decode, HasFrame;
      messages, discarded := [], false;
      recvBuffer := if |recvBuffer| == 0 then chunk else recvBuffer + chunk;
      ghost var all := recvBuffer;
      assert all == old(recvBuffer) + chunk;
      if |recvBuffer| > PAYLOAD_MAX_LEN {
        recvBuffer := [];
        return [], true;
      }
      var msgStart := 0;
      NothingYet(all, littleEndian);
      while true
        invariant recvBuffer == all && 0 <= msgStart <= |all|
        invariant Decode(all, littleEndian) == After(messages, Decode(all[msgStart..], littleEndian))
        decreases |all| - msgStart
      {
        ghost var done := messages;
        var readLen := |recvBuffer| - msgStart;
        if readLen < 4 { break; }
        var msgLen := ReadUint32(recvBuffer[msgStart..msgStart + 4], littleEndian);
        if readLen < 4 + msgLen { break; }
        messages := messages + [recvBuffer[msgStart + 4..msgStart + 4 + msgLen]];
        NextFrame(all, msgStart, done, littleEndian);
        msgStart := msgStart + 4 + msgLen;
      }
      NoMoreFrames(all, msgStart, messages, littleEndian);
      if msgStart != 0 {
        recvBuffer := recvBuffer[msgStart..];
      }
    }
  }

  lemma NothingYet(all: seq<byte>, littleEndian: bool)
    ensures all[0..] == all
    ensures Decode(all, littleEndian) == After([], Decode(all, littleEndian))
  {
    hide Decode;
    assert [] + Decode(all, littleEndian).messages == Decode(all, littleEndian).messages;
  }

  /** What cutting the frame at `i` does to the decoding of the rest. */
  lemma NextFrame(all: seq<byte>, i: nat, done: seq<seq<byte>>, littleEndian: bool)
    requires i + 4 <= |all| && i + 4 + ReadUint32(all[i..i + 4], littleEndian) <= |all|
    ensures var n := ReadUint32(all[i..i + 4], littleEndian);
            After(done, Decode(all[i..], littleEndian)) ==
            After(done + [all[i + 4..i + 4 + n]], Decode(all[i + 4 + n..], littleEndian))
  {
    hide ReadUint32;
    var left := all[i..];
    var n := ReadUint32(all[i..i + 4], littleEndian);
    assert left[..4] == all[i..i + 4];
    assert left[4..4 + n] == all[i + 4..i + 4 + n] && left[4 + n..] == all[i + 4 + n..];
    AfterAfter(done, [all[i + 4..i + 4 + n]], Decode(all[i + 4 + n..], littleEndian));
  }

  lemma NoMoreFrames(all: seq<byte>, i: nat, done: seq<seq<byte>>, littleEndian: bool)
    requires i <= |all|
    requires |all| - i < 4 || |all| - i < 4 + ReadUint32(all[i..i + 4], littleEndian)
    ensures After(done, Decode(all[i..], littleEndian)) == Decoded(done, if i == 0 then all else all[i..])
  {
    hide ReadUint32;
    var left := all[i..];
    if |left| >= 4 {
      assert left[..4] == all[i..i + 4];
    }
    assert done + [] == done;
  }

  /** A run over any sequence of chunks; `discarded` tells whether data was ever thrown away. */
  function Receive(chunks: seq<seq<byte>>, littleEndian: bool): Step {
    if chunks == [] then Step([], [], false)
    else
      var before := Receive(chunks[..|chunks| - 1], littleEndian);
      var now := OnChunk(before.buffer, chunks[|chunks| - 1], littleEndian);
      Step(before.messages + now.messages, now.buffer, before.discarded || now.discarded)
  }

  function Stream(chunks: seq<seq<byte>>): seq<byte> {
    if chunks == [] then [] else Stream(chunks[..|chunks| - 1]) + chunks[|chunks| - 1]
  }

  /**
   Streaming refines whole-stream decoding: unless data is discarded, what has been
   delivered and what is left in the buffer do not depend on how the stream was cut, and
   the buffer holds no complete frame.
   */
  lemma {:induction false} StreamingRefines(chunks: seq<seq<byte>>, littleEndian: bool)
    ensures var r := Receive(chunks, littleEndian);
            !r.discarded ==>
              && Decoded(r.messages, r.buffer) == Decode(Stream(chunks), littleEndian)
              && !HasFrame(r.buffer, littleEndian)
  {
    hide Decode;
    RestIsIncomplete(Stream(chunks), littleEndian);
    if chunks == [] {
      NothingDecoded(littleEndian);
    } else {
      var n := |chunks| - 1;
      StreamingRefines(chunks[..n], littleEndian);
      DecodeAppend(Stream(chunks[..n]), chunks[n], littleEndian);
    }
  }

  // ----- When nothing is discarded

  ghost predicate WithinLimits(ms: seq<seq<byte>>, chunks: seq<seq<byte>>, maxMessage: nat, maxChunk: nat) {
    && AreMessages(ms)
    && (forall i :: 0 <= i < |ms| ==> |ms[i]| <= maxMessage)
    && (forall i :: 0 <= i < |chunks| ==> |chunks[i]| <= maxChunk)
  }

  /** A stream cut anywhere decodes to the messages that are complete, the rest being the start of the next frame. */
  lemma {:induction false} DecodePrefix(ms: seq<seq<byte>>, p: seq<byte>, littleEndian: bool) returns (k: nat)
    requires AreMessages(ms) && p <= EncodeAll(ms, littleEndian)
    ensures k <= |ms| && Decode(p, littleEndian).messages == ms[..k]
    ensures var rest := Decode(p, littleEndian).rest;
            if k == |ms| then rest == [] else rest < Frame(ms[k], littleEndian)
    decreases |ms|
  {
    hide Decode, Frame, IsMessage;
    if ms == [] {
      k := 0;
      assert p == [];
      NothingDecoded(littleEndian);
    } else {
      var frame := Frame(ms[0], littleEndian);
      var all := EncodeAll(ms, littleEndian);
      if |p| < |frame| {
        k := 0;
        assert p == frame[..|p|];
        StartOfFrame(ms[0], p, littleEndian);
      } else {
        assert p[..|frame|] == frame;
        assert all[|frame|..] == EncodeAll(ms[1..], littleEndian);
        var p' := p[|frame|..];
        assert p' == all[|frame|..][..|p'|];
        k := DecodePrefix(ms[1..], p', littleEndian);
        assert p == frame + p';
        FrameIsCut(ms[0], p', littleEndian);
        assert [ms[0]] + ms[1..][..k] == ms[..k + 1];
        k := k + 1;
      }
    }
  }

  lemma NothingDecoded(littleEndian: bool)
    ensures Decode([], littleEndian) == Decoded([], [])
  {
  }

  lemma StartOfFrame(m: seq<byte>, p: seq<byte>, littleEndian: bool)
    requires IsMessage(m) && p < Frame(m, littleEndian)
    ensures Decode(p, littleEndian) == Decoded([], p)
  {
    if |p| >= 4 {
      assert p[..4] == Frame(m, littleEndian)[..4] == WriteUint32(|m|, littleEndian);
      ReadWrite(|m|, littleEndian);
    }
  }

  /**
   With messages of at most `maxMessage` bytes and chunks of at most `maxChunk` bytes,
   nothing is ever discarded if the two and 3 more fit in the buffer limit. Then the
   messages that arrived completely have been delivered, and only they, and the buffer
   holds a proper start of the next frame.
   */
  lemma {:induction false} NeverDiscards(ms: seq<seq<byte>>, chunks: seq<seq<byte>>, maxMessage: nat, maxChunk: nat,
                                         littleEndian: bool)
    returns (k: nat)
    requires WithinLimits(ms, chunks, maxMessage, maxChunk) && maxMessage + maxChunk + 3 <= PAYLOAD_MAX_LEN
    requires Stream(chunks) <= EncodeAll(ms, littleEndian)
    ensures !Receive(chunks, littleEndian).discarded
    ensures k <= |ms| && Receive(chunks, littleEndian).messages == ms[..k]
    ensures var buffer := Receive(chunks, littleEndian).buffer;
            if k == |ms| then buffer == [] else buffer < Frame(ms[k], littleEndian)
    decreases |chunks|
  {
    if chunks != [] {
      var n := |chunks| - 1;
      assert Stream(chunks[..n]) <= Stream(chunks);
      var j := NeverDiscards(ms, chunks[..n], maxMessage, maxChunk, littleEndian);
      assert |Receive(chunks[..n], littleEndian).buffer| <= maxMessage + 3;
    }
    StreamingRefines(chunks, littleEndian);
    k := DecodePrefix(ms, Stream(chunks), littleEndian);
  }

  /** Cuts a stream into chunks of at most `n` bytes. */
  ghost function Chop(s: seq<byte>, n: nat): (chunks: seq<seq<byte>>)
    requires n > 0
    ensures Stream(chunks) == s
    ensures forall i :: 0 <= i < |chunks| ==> |chunks[i]| <= n
    decreases |s|
  {
    if |s| <= n then
      assert Stream([s]) == s;
      [s]
    else
      var cut := |s| - n;
      var before := Chop(s[..cut], n);
      assert (before + [s[cut..]])[..|before|] == before;
      assert s[..cut] + s[cut..] == s;
      before + [s[cut..]]
  }

  ghost function Copies(m: seq<byte>, n: nat): (ms: seq<seq<byte>>)
    ensures |ms| == n && forall i :: 0 <= i < n ==> ms[i] == m
  {
    if n == 0 then [] else Copies(m, n - 1) + [m]
  }

  lemma {:induction false} CopiesAreLong(ms: seq<seq<byte>>, littleEndian: bool)
    requires AreMessages(ms) && ms != []
    ensures |EncodeAll(ms, littleEndian)| >= 4 * |ms| + |ms[0]|
  {
    if |ms| > 1 {
      CopiesAreLong(ms[1..], littleEndian);
    }
  }

  /** The bound is tight: when it is exceeded, some stream within the limits loses data. */
  lemma SomeRunDiscards(maxMessage: nat, maxChunk: nat, littleEndian: bool)
    returns (ms: seq<seq<byte>>, chunks: seq<seq<byte>>)
    requires maxMessage < 0x1_0000_0000 && maxChunk > 0 && maxMessage + maxChunk + 3 > PAYLOAD_MAX_LEN
    ensures WithinLimits(ms, chunks, maxMessage, maxChunk)
    ensures Stream(chunks) <= EncodeAll(ms, littleEndian)
    ensures Receive(chunks, littleEndian).discarded
  {
    hide Decode, Frame, Chop;
    var m: seq<byte> := seq(maxMessage, _ => 0);
    ms := Copies(m, maxChunk + 1);
    var all := EncodeAll(ms, littleEndian);
    CopiesAreLong(ms, littleEndian);
    var cut := maxMessage + 3;
    var start := all[..cut];
    var before := Chop(start, maxChunk);
    var last := all[cut..cut + maxChunk];
    chunks := before + [last];
    assert chunks[..|before|] == before;
    assert Stream(chunks) == start + last == all[..cut + maxChunk];
    assert start == Frame(ms[0], littleEndian)[..cut];
    StartOfFrame(ms[0], start, littleEndian);
    LastChunkDiscards(before, last, start, littleEndian);
  }

  lemma LastChunkDiscards(before: seq<seq<byte>>, last: seq<byte>, start: seq<byte>, littleEndian: bool)
    requires Stream(before) == start && Decode(start, littleEndian) == Decoded([], start)
    requires |start| + |last| > PAYLOAD_MAX_LEN
    ensures Receive(before + [last], littleEndian).discarded
  {
    hide Decode;
    assert (before + [last])[..|before|] == before;
    StreamingRefines(before, littleEndian);
  }
}
