/** Segmentation of messages across Noise records and their reassembly.

    The Noise transport is taken as a channel that delivers each segment unchanged and
    adds a fixed tag; a message is its serialized bytes.
  */
module NoiseFraming {
  import opened MachineInts
  import opened Wrappers
  import opened BigEndian

  const MAX_FRAME_LEN := 32 * 1024 * 1024
  const MAX_WIRE_PACKET_LEN := 65_535
  const MAX_NOISE_PLAINTEXT_LEN := 60 * 1024
  const NOISE_SEGMENT_HEADER_LEN := 12
  const NOISE_TAG_LEN := 16
  const CHUNK_LEN := MAX_NOISE_PLAINTEXT_LEN - NOISE_SEGMENT_HEADER_LEN
  const MAGIC: seq<byte> := [0x47, 0x43, 0x4E, 0x31]

  type Bytes = seq<byte>

  /** `EndOfStream` is the I/O error of a connection that closes before a message is complete. */
  datatype ProtocolError = FrameTooLarge(length: nat) | MalformedFrame | EndOfStream

  datatype Segment = Segment(totalLen: u32, offset: u32, chunk: Bytes)

  predicate Fits(segment: Segment) {
    segment.offset + |segment.chunk| <= segment.totalLen
  }

  function SegmentBytes(segment: Segment): (b: Bytes)
    ensures |b| == NOISE_SEGMENT_HEADER_LEN + |segment.chunk|
  {
    MAGIC + WriteU32(segment.totalLen) + WriteU32(segment.offset) + segment.chunk
  }

  /** `noise_segment`. */
  function NoiseSegment(totalLen: nat, offset: nat, chunk: Bytes): (r: Result<Bytes, ProtocolError>)
    ensures r.Ok? <==> totalLen <= U32_MAX && offset + |chunk| <= totalLen
  {
    if totalLen > U32_MAX || offset > U32_MAX || offset + |chunk| > totalLen then Err(MalformedFrame)
    else Ok(SegmentBytes(Segment(totalLen, offset, chunk)))
  }

  /** `parse_noise_segment`. */
  function ParseSegment(b: Bytes): (r: Result<Segment, ProtocolError>)
    ensures r.Ok? ==> Fits(r.value)
    ensures r.Err? ==> r == Err(MalformedFrame)
  {
    if |b| < NOISE_SEGMENT_HEADER_LEN || b[..4] != MAGIC then Err(MalformedFrame)
    else
      var segment := Segment(ReadU32(b, 4), ReadU32(b, 8), b[NOISE_SEGMENT_HEADER_LEN..]);
      if segment.offset > segment.totalLen || !Fits(segment) then Err(MalformedFrame) else Ok(segment)
  }

  lemma ConcatSlices(b: Bytes, m: nat, x: Bytes, y: Bytes)
    requires |x| == m
    ensures b == x + y <==> m <= |b| && b[..m] == x && b[m..] == y
  {
    if b == x + y {
      assert b[..m] == x && b[m..] == y;
    }
    if m <= |b| && b[..m] == x && b[m..] == y {
      assert b == b[..m] + b[m..];
    }
  }

  /** Segments and their bytes correspond one to one. */
  lemma SegmentRoundTrip(segment: Segment, b: Bytes)
    ensures NoiseSegment(segment.totalLen, segment.offset, segment.chunk) == Ok(b) <==> ParseSegment(b) == Ok(segment)
  {
    var t, o := WriteU32(segment.totalLen), WriteU32(segment.offset);
    ConcatSlices(b, 12, MAGIC + t + o, segment.chunk);
    if |b| >= 12 {
      var h := b[..12];
      ConcatSlices(h, 8, MAGIC + t, o);
      ConcatSlices(h[..8], 4, MAGIC, t);
      assert h[..8][..4] == b[..4] && h[..8][4..] == b[4..8] && h[8..] == b[8..12];
      U32Field(b, 4, segment.totalLen);
      U32Field(b, 8, segment.offset);
    }
  }

  // ---------------------------------------------------------------- writing

  function Min(a: nat, b: nat): nat {
    if a < b then a else b
  }

  function ChunkEnd(plain: Bytes, offset: nat): nat {
    Min(offset + CHUNK_LEN, |plain|)
  }

  function SegmentAt(plain: Bytes, offset: nat): Segment
    requires offset <= |plain| <= U32_MAX
  {
    Segment(|plain|, offset, plain[offset..ChunkEnd(plain, offset)])
  }

  /** The segments of one message from an offset on; even an empty message has one. */
  function SegmentsFrom(plain: Bytes, offset: nat): (packets: seq<Bytes>)
    requires offset <= |plain| <= U32_MAX
    ensures packets != []
    decreases |plain| - offset
  {
    [SegmentBytes(SegmentAt(plain, offset))] +
    (if ChunkEnd(plain, offset) == |plain| then [] else SegmentsFrom(plain, ChunkEnd(plain, offset)))
  }

  /** What `NoiseSocket::write` hands to the transport. */
  function Write(plain: Bytes): Result<seq<Bytes>, ProtocolError> {
    if |plain| > MAX_FRAME_LEN then Err(FrameTooLarge(|plain|)) else Ok(SegmentsFrom(plain, 0))
  }

  lemma WriteStep(packets: seq<Bytes>, plain: Bytes, offset: nat)
    requires offset <= |plain| <= U32_MAX
    ensures var end, segment := ChunkEnd(plain, offset), SegmentBytes(SegmentAt(plain, offset));
            && NoiseSegment(|plain|, offset, plain[offset..end]) == Ok(segment)
            && packets + SegmentsFrom(plain, offset)
               == if end == |plain| then packets + [segment] else packets + [segment] + SegmentsFrom(plain, end)
  {
  }

  /** `NoiseSocket::write`. */
  method WriteMessage(plain: Bytes) returns (r: Result<seq<Bytes>, ProtocolError>)
    ensures r == Write(plain)
  {
    hide SegmentsFrom, NoiseSegment, SegmentBytes;
    if |plain| > MAX_FRAME_LEN {
      return Err(FrameTooLarge(|plain|));
    }
    var packets: seq<Bytes> := [];
    var offset := 0;
    while true
      invariant offset <= |plain|
      invariant packets + SegmentsFrom(plain, offset) == SegmentsFrom(plain, 0)
      decreases |plain| - offset
    {
      WriteStep(packets, plain, offset);
      var end := Min(offset + CHUNK_LEN, |plain|);
      var segment := NoiseSegment(|plain|, offset, plain[offset..end]);
      if segment.Err? {
        return Err(MalformedFrame);
      }
      packets := packets + [segment.value];
      if end == |plain| {
        return Ok(packets);
      }
      offset := end;
    }
  }

  /** A message is sent exactly when it has at most 32 MiB; an empty one takes a segment too. */
  lemma SentExactlyWhen(plain: Bytes)
    ensures if |plain| <= 32 * 1024 * 1024 then Write(plain).Ok? && Write(plain).value != []
            else Write(plain) == Err(FrameTooLarge(|plain|))
  {
  }

  /** Every encrypted segment fits one wire packet, and all but the last one of a message are full. */
  lemma {:induction false} PacketsFit(plain: Bytes, offset: nat, packets: seq<Bytes>)
    requires offset <= |plain| <= U32_MAX && packets == SegmentsFrom(plain, offset)
    ensures forall i :: 0 <= i < |packets| ==> |packets[i]| + NOISE_TAG_LEN <= MAX_WIRE_PACKET_LEN
    ensures forall i :: 0 <= i < |packets| - 1 ==> |packets[i]| == 60 * 1024
    decreases |plain| - offset
  {
    var first := SegmentBytes(SegmentAt(plain, offset));
    if ChunkEnd(plain, offset) == |plain| {
      assert packets == [first];
    } else {
      var later := SegmentsFrom(plain, ChunkEnd(plain, offset));
      assert packets == [first] + later;
      PacketsFit(plain, ChunkEnd(plain, offset), later);
      FitsBehind(first, later);
    }
  }

  lemma FitsBehind(first: Bytes, later: seq<Bytes>)
    requires |first| == 60 * 1024 && later != []
    requires forall i :: 0 <= i < |later| ==> |later[i]| + NOISE_TAG_LEN <= MAX_WIRE_PACKET_LEN
    requires forall i :: 0 <= i < |later| - 1 ==> |later[i]| == 60 * 1024
    ensures var packets := [first] + later;
            && (forall i :: 0 <= i < |packets| ==> |packets[i]| + NOISE_TAG_LEN <= MAX_WIRE_PACKET_LEN)
            && (forall i :: 0 <= i < |packets| - 1 ==> |packets[i]| == 60 * 1024)
  {
  }

  // ---------------------------------------------------------------- reading

  /** What the read loop carries from segment to segment. */
  datatype Progress = Progress(expectedTotal: Option<u32>, plain: Bytes)

  const START := Progress(None, [])

  /** One pass of the read loop up to and including the append. */
  function Accept(progress: Progress, packet: Bytes, maxLen: nat): Result<Progress, ProtocolError> {
    match ParseSegment(packet)
    case Err(error) => Err(error)
    case Ok(segment) =>
      if segment.totalLen > maxLen then Err(FrameTooLarge(segment.totalLen))
      else if progress.expectedTotal.Some? && progress.expectedTotal.value != segment.totalLen then Err(MalformedFrame)
      else if segment.offset != |progress.plain| || segment.offset + |segment.chunk| > segment.totalLen then
        Err(MalformedFrame)
      else if segment.chunk == [] && |progress.plain| < segment.totalLen then Err(MalformedFrame)
      else Ok(Progress(Some(segment.totalLen), progress.plain + segment.chunk))
  }

  predicate Complete(progress: Progress) {
    progress.expectedTotal == Some(|progress.plain|)
  }

  datatype Reading = Message(plain: Bytes, rest: seq<Bytes>) | Failed(error: ProtocolError, rest: seq<Bytes>)

  function ReadOn(packets: seq<Bytes>, maxLen: nat, progress: Progress): Reading {
    if packets == [] then Failed(EndOfStream, [])
    else
      match Accept(progress, packets[0], maxLen)
      case Err(error) => Failed(error, packets[1..])
      case Ok(next) =>
        if Complete(next) then Message(next.plain, packets[1..]) else ReadOn(packets[1..], maxLen, next)
  }

  /** What `NoiseSocket::read_limited` returns on a stream of packets. */
  function Read(packets: seq<Bytes>, maxLen: nat): Reading {
    ReadOn(packets, Min(maxLen, MAX_FRAME_LEN), START)
  }

  /** `NoiseSocket::read_limited`. */
  method ReadLimited(packets: seq<Bytes>, maxLen: nat) returns (r: Reading)
    ensures r == Read(packets, maxLen)
  {
    var limit := Min(maxLen, MAX_FRAME_LEN);
    var expectedTotal: Option<u32> := None;
    var plainMessage: Bytes := [];
    var next := 0;
    while next < |packets|
      invariant 0 <= next <= |packets|
      invariant ReadOn(packets[next..], limit, Progress(expectedTotal, plainMessage)) == Read(packets, maxLen)
    {
      var parsed := ParseSegment(packets[next]);
      next := next + 1;
      assert packets[next - 1..][1..] == packets[next..];
      if parsed.Err? {
        return Failed(parsed.error, packets[next..]);
      }
      var segment := parsed.value;
      if segment.totalLen > limit {
        return Failed(FrameTooLarge(segment.totalLen), packets[next..]);
      }
      if expectedTotal.Some? && expectedTotal.value != segment.totalLen {
        return Failed(MalformedFrame, packets[next..]);
      }
      expectedTotal := Some(segment.totalLen);
      if segment.offset != |plainMessage| || segment.offset + |segment.chunk| > segment.totalLen {
        return Failed(MalformedFrame, packets[next..]);
      }
      if segment.chunk == [] && |plainMessage| < segment.totalLen {
        return Failed(MalformedFrame, packets[next..]);
      }
      plainMessage := plainMessage + segment.chunk;
      if |plainMessage| == segment.totalLen {
        return Message(plainMessage, packets[next..]);
      }
    }
    return Failed(EndOfStream, []);
  }

  // ---------------------------------------------------------------- which packets make a message

  /** The header of a segment: a magic, the length of the message, and where the chunk belongs in it. */
  lemma SegmentLayout(segment: Segment)
    ensures var b := SegmentBytes(segment);
            && b[..4] == [0x47, 0x43, 0x4E, 0x31]
            && ReadU32(b, 4) == segment.totalLen && ReadU32(b, 8) == segment.offset
            && b[12..] == segment.chunk
  {
    var b := SegmentBytes(segment);
    assert b[4..4 + 4] == WriteU32(segment.totalLen) && b[8..8 + 4] == WriteU32(segment.offset);
    U32Field(b, 4, segment.totalLen);
    U32Field(b, 8, segment.offset);
  }

  /** The packets begin with the segments of a message from one position on, cut anywhere but nowhere empty
      unless the message is, in order and without gap, and `rest` is what follows them. */
  ghost predicate Segmented(packets: seq<Bytes>, plain: Bytes, from: nat, rest: seq<Bytes>)
    decreases |packets|
  {
    && packets != [] && from <= |plain| <= U32_MAX
    && exists to: nat ::
         && from <= to <= |plain| && (from < to || plain == [])
         && packets[0] == SegmentBytes(Segment(|plain|, from, plain[from..to]))
         && (if to == |plain| then rest == packets[1..] else Segmented(packets[1..], plain, to, rest))
  }

  /** Where reading stands after some of a message. */
  predicate Partly(progress: Progress, limit: nat) {
    progress == START || (progress.expectedTotal.Some? && 0 < |progress.plain| < progress.expectedTotal.value <= limit)
  }

  lemma {:induction false} ReadOnExactlyWhen(
    packets: seq<Bytes>, limit: nat, progress: Progress, plain: Bytes, rest: seq<Bytes>)
    requires limit <= U32_MAX && Partly(progress, limit)
    ensures ReadOn(packets, limit, progress) == Message(plain, rest)
            <==> && |plain| <= limit && progress.plain <= plain
                 && (progress.expectedTotal.Some? ==> progress.expectedTotal.value == |plain|)
                 && Segmented(packets, plain, |progress.plain|, rest)
    decreases |packets|
  {
    hide Accept, SegmentBytes;
    if packets != [] {
      var accepted, from := Accept(progress, packets[0], limit), |progress.plain|;
      if accepted.Ok? {
        var next := accepted.value;
        AcceptedIsSegment(progress, packets[0], limit);
        if !Complete(next) {
          ReadOnExactlyWhen(packets[1..], limit, next, plain, rest);
        }
        if ReadOn(packets, limit, progress) == Message(plain, rest) {
          var to := |next.plain|;
          assert next.plain[from..] == plain[from..to];
        }
      }
      if && |plain| <= limit && progress.plain <= plain && Segmented(packets, plain, from, rest)
         && (progress.expectedTotal.Some? ==> progress.expectedTotal.value == |plain|) {
        var to: nat :| && from <= to <= |plain| && (from < to || plain == [])
                       && packets[0] == SegmentBytes(Segment(|plain|, from, plain[from..to]))
                       && (if to == |plain| then rest == packets[1..] else Segmented(packets[1..], plain, to, rest));
        SegmentIsAccepted(progress, plain, to, limit);
        assert plain[..|plain|] == plain;
      }
    }
  }

  lemma AcceptedIsSegment(progress: Progress, packet: Bytes, limit: nat)
    requires Accept(progress, packet, limit).Ok?
    ensures var next := Accept(progress, packet, limit).value;
            && next.expectedTotal.Some? && progress.plain <= next.plain
            && |next.plain| <= next.expectedTotal.value <= limit
            && (progress.expectedTotal.Some? ==> next.expectedTotal == progress.expectedTotal)
            && (|progress.plain| < |next.plain| || next.expectedTotal.value <= |progress.plain|)
            && packet
               == SegmentBytes(Segment(next.expectedTotal.value, |progress.plain|, next.plain[|progress.plain|..]))
  {
    var segment := ParseSegment(packet).value;
    SegmentRoundTrip(segment, packet);
  }

  lemma SegmentIsAccepted(progress: Progress, plain: Bytes, to: nat, limit: nat)
    requires |plain| <= limit <= U32_MAX && progress.plain <= plain && |progress.plain| <= to <= |plain|
    requires progress.expectedTotal.Some? ==> progress.expectedTotal.value == |plain|
    requires |progress.plain| < to || plain == []
    ensures Accept(progress, SegmentBytes(Segment(|plain|, |progress.plain|, plain[|progress.plain|..to])), limit)
            == Ok(Progress(Some(|plain|), plain[..to]))
  {
    var segment := Segment(|plain|, |progress.plain|, plain[|progress.plain|..to]);
    SegmentRoundTrip(segment, SegmentBytes(segment));
    assert progress.plain + segment.chunk == plain[..to];
  }

  /** Whatever arrives, a message is read exactly when the packets begin with its segments: one length in all
      of them, chunks in order without gap or overlap, however they are cut; nothing else ever reads as a
      message. */
  lemma ReadsExactlyTheSegmented(packets: seq<Bytes>, maxLen: nat, plain: Bytes, rest: seq<Bytes>)
    ensures Read(packets, maxLen) == Message(plain, rest)
            <==> |plain| <= Min(maxLen, 32 * 1024 * 1024) && Segmented(packets, plain, 0, rest)
  {
    ReadOnExactlyWhen(packets, Min(maxLen, MAX_FRAME_LEN), START, plain, rest);
  }
  // ---------------------------------------------------------------- reassembly

  /** What the writer hands over is its message, cut at every chunk. */
  lemma {:induction false} OwnSegments(plain: Bytes, offset: nat, rest: seq<Bytes>)
    requires offset <= |plain| <= U32_MAX && (offset == |plain| ==> plain == [])
    ensures Segmented(SegmentsFrom(plain, offset) + rest, plain, offset, rest)
    decreases |plain| - offset
  {
    hide SegmentBytes;
    var end, packets := ChunkEnd(plain, offset), SegmentsFrom(plain, offset) + rest;
    assert packets[0] == SegmentBytes(SegmentAt(plain, offset));
    if end == |plain| {
      assert packets[1..] == rest;
    } else {
      assert packets[1..] == SegmentsFrom(plain, end) + rest;
      OwnSegments(plain, end, rest);
    }
  }

  predicate Sendable(messages: seq<Bytes>, maxLen: nat) {
    forall i :: 0 <= i < |messages| ==> |messages[i]| <= Min(maxLen, MAX_FRAME_LEN)
  }

  /** The packets of several messages written one after another. */
  function WriteAll(messages: seq<Bytes>): seq<Bytes>
    requires Sendable(messages, MAX_FRAME_LEN)
  {
    if messages == [] then [] else Write(messages[0]).value + WriteAll(messages[1..])
  }

  /** As many messages as the packets hold. */
  function ReadAll(packets: seq<Bytes>, maxLen: nat, count: nat): Result<(seq<Bytes>, seq<Bytes>), ProtocolError>
    decreases count
  {
    if count == 0 then Ok(([], packets))
    else
      match Read(packets, maxLen)
      case Failed(error, _) => Err(error)
      case Message(plain, rest) =>
        match ReadAll(rest, maxLen, count - 1)
        case Err(error) => Err(error)
        case Ok((messages, left)) => Ok(([plain] + messages, left))
  }

  /** Any list of messages within the limit is read back exactly, with nothing left over. */
  lemma {:induction false} MessagesRoundTrip(messages: seq<Bytes>, maxLen: nat)
    requires Sendable(messages, maxLen)
    ensures Sendable(messages, MAX_FRAME_LEN)
    ensures ReadAll(WriteAll(messages), maxLen, |messages|) == Ok((messages, []))
  {
    hide ReadOn, SegmentsFrom, Segmented;
    assert Sendable(messages, MAX_FRAME_LEN);
    if messages != [] {
      OwnSegments(messages[0], 0, WriteAll(messages[1..]));
      ReadsExactlyTheSegmented(WriteAll(messages), maxLen, messages[0], WriteAll(messages[1..]));
      assert Read(WriteAll(messages), maxLen) == Message(messages[0], WriteAll(messages[1..]));
      MessagesRoundTrip(messages[1..], maxLen);
      assert [messages[0]] + messages[1..] == messages;
    }
  }

  // ---------------------------------------------------------------- arbitrary input

  /** What the loop keeps whatever the peer sends. */
  predicate Bounded(progress: Progress, maxLen: nat) {
    progress.expectedTotal.Some? ==> |progress.plain| <= progress.expectedTotal.value <= maxLen
  }

  /** An accepted segment keeps the declared total, extends the message, and adds a byte unless it completes it. */
  lemma AcceptedSegmentAdvances(progress: Progress, packet: Bytes, maxLen: nat)
    requires Accept(progress, packet, maxLen).Ok?
    ensures var next := Accept(progress, packet, maxLen).value;
            && Bounded(next, maxLen)
            && progress.plain <= next.plain
            && (progress.expectedTotal.Some? ==> next.expectedTotal == progress.expectedTotal)
            && next.expectedTotal.Some?
            && (!Complete(next) ==> |progress.plain| < |next.plain|)
  {
  }

  /** Reading ends within as many packets as the declared total has bytes (or one), buffers at most
      the limit, and a message it returns is exactly as long as declared. */
  lemma {:induction false} ReadTerminatesWithinTotal(packets: seq<Bytes>, maxLen: nat, progress: Progress, total: nat)
    requires progress.expectedTotal == Some(total) && |progress.plain| < total <= maxLen
    ensures var r := ReadOn(packets, maxLen, progress);
            && |r.rest| <= |packets|
            && |packets| - |r.rest| <= total - |progress.plain|
            && (r.Message? ==> |r.plain| == total && progress.plain <= r.plain)
    decreases |packets|
  {
    if packets != [] {
      var accepted := Accept(progress, packets[0], maxLen);
      if accepted.Ok? {
        AcceptedSegmentAdvances(progress, packets[0], maxLen);
        if !Complete(accepted.value) {
          ReadTerminatesWithinTotal(packets[1..], maxLen, accepted.value, total);
        }
      }
    }
  }

  /** Whatever arrives, a message that is returned is no longer than the limit and used at most
      one packet per byte, or one packet when it is empty. */
  lemma ArbitraryInputIsBounded(packets: seq<Bytes>, maxLen: nat)
    ensures var r := Read(packets, maxLen);
            r.Message? ==>
              && |r.plain| <= Min(maxLen, MAX_FRAME_LEN)
              && 1 <= |packets| - |r.rest| <= (if r.plain == [] then 1 else |r.plain|)
  {
    var limit := Min(maxLen, MAX_FRAME_LEN);
    if packets != [] {
      var accepted := Accept(START, packets[0], limit);
      if accepted.Ok? {
        AcceptedSegmentAdvances(START, packets[0], limit);
        if !Complete(accepted.value) {
          ReadTerminatesWithinTotal(packets[1..], limit, accepted.value, accepted.value.expectedTotal.value);
        }
      }
    }
  }
}
